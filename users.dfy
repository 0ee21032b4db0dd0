/**
 * The `users` table of `backend/models/User.js`: creation, the finders and the
 * fields each returns, and the three updates of the two-factor columns. The
 * password hash is bcrypt's output and enters as a value.
 */
module Users {
  import opened Wrappers
  import Ordering

  /** A stored user; `twoFactorSecret` holds the encrypted secret. */
  datatype UserRow = UserRow(
    id: int,
    username: string,
    email: string,
    passwordHash: string,
    createdAt: int,
    twoFactorEnabled: bool,
    twoFactorSecret: Option<string>,
    twoFactorVerifiedAt: Option<int>)

  /** The columns `create` returns and `findById` selects: nothing secret. */
  datatype PublicUser = PublicUser(id: int, username: string, email: string, createdAt: int, twoFactorEnabled: bool)

  /** The columns `findByIdWithSensitive` selects: the two-factor state, but no password hash. */
  datatype SensitiveUser = SensitiveUser(
    id: int,
    username: string,
    email: string,
    createdAt: int,
    twoFactorEnabled: bool,
    twoFactorSecret: Option<string>,
    twoFactorVerifiedAt: Option<int>)

  function PublicView(u: UserRow): PublicUser {
    PublicUser(u.id, u.username, u.email, u.createdAt, u.twoFactorEnabled)
  }

  function SensitiveView(u: UserRow): SensitiveUser {
    SensitiveUser(u.id, u.username, u.email, u.createdAt, u.twoFactorEnabled, u.twoFactorSecret, u.twoFactorVerifiedAt)
  }

  /** The row's two-factor columns as `updateTwoFactorSecret` leaves them. */
  function WithSecret(u: UserRow, encryptedSecret: string): UserRow {
    u.(twoFactorSecret := Some(encryptedSecret), twoFactorEnabled := false, twoFactorVerifiedAt := None)
  }

  /** Every row with the id changed by `update`, the others kept. */
  predicate UpdatedWhere(before: seq<UserRow>, after: seq<UserRow>, id: int, update: UserRow -> UserRow) {
    && |after| == |before|
    && forall i :: 0 <= i < |before| ==> after[i] == if before[i].id == id then update(before[i]) else before[i]
  }

  class UserStore {
    /** The table in insertion order. */
    var users: seq<UserRow>
    /** The next value of the `SERIAL` id sequence. */
    var nextId: int

    /** Ids are issued by the sequence; `username` and `email` are `UNIQUE`. */
    ghost predicate Valid()
      reads this
    {
      && nextId >= 1
      && (forall i :: 0 <= i < |users| ==> 1 <= users[i].id < nextId)
      && (forall i, j :: 0 <= i < j < |users| ==> users[i].id != users[j].id)
      && (forall i, j :: 0 <= i < j < |users| ==> users[i].email != users[j].email)
      && (forall i, j :: 0 <= i < j < |users| ==> users[i].username != users[j].username)
    }

    constructor ()
      ensures Valid() && users == [] && nextId == 1
    {
      users := [];
      nextId := 1;
    }

    predicate Taken(username: string, email: string)
      reads this
    {
      exists i :: 0 <= i < |users| && (users[i].username == username || users[i].email == email)
    }

    /**
     * `User.create`: a new row with two-factor off and no secret, returning its public
     * columns; a username or email already taken violates a `UNIQUE` constraint and
     * inserts nothing. The `SERIAL` value is drawn before the constraint is checked, so
     * it is used up either way.
     */
    method Create(username: string, email: string, passwordHash: string, now: int) returns (user: Option<PublicUser>)
      requires Valid()
      modifies this
      ensures Valid()
      ensures user.None? <==> old(Taken(username, email))
      ensures nextId == old(nextId) + 1
      ensures user.None? ==> users == old(users)
      ensures user.Some? ==>
        var row := UserRow(old(nextId), username, email, passwordHash, now, false, None, None);
        && users == old(users) + [row]
        && user.value == PublicView(row)
    {
      var id := nextId;
      nextId := nextId + 1;
      if Taken(username, email) {
        return None;
      }
      var row := UserRow(id, username, email, passwordHash, now, false, None, None);
      users := users + [row];
      user := Some(PublicView(row));
    }

    /** `User.findByEmail`: every column of the user with that email, if any. */
    function FindByEmail(email: string): (r: Option<UserRow>)
      reads this
      ensures r.Some? ==> r.value in users && r.value.email == email
      ensures r.None? ==> forall i :: 0 <= i < |users| ==> users[i].email != email
    {
      Ordering.First(users, (u: UserRow) => u.email == email)
    }

    /** The `WHERE id = $1` row that `findById` and `findByIdWithSensitive` each project. */
    function Find(id: int): (r: Option<UserRow>)
      reads this
      ensures r.Some? ==> r.value in users && r.value.id == id
      ensures r.None? ==> forall i :: 0 <= i < |users| ==> users[i].id != id
    {
      Ordering.First(users, (u: UserRow) => u.id == id)
    }

    /** `User.findById`: the public columns of the user with that id, if any. */
    function FindById(id: int): (r: Option<PublicUser>)
      reads this
      ensures r.Some? <==> exists i :: 0 <= i < |users| && users[i].id == id
      ensures r.Some? ==> exists u :: u in users && u.id == id && r.value == PublicView(u)
    {
      var found := Find(id);
      if found.Some? then Some(PublicView(found.value)) else None
    }

    /** `User.findByIdWithSensitive`: the two-factor columns too, still without the password hash. */
    function FindByIdWithSensitive(id: int): (r: Option<SensitiveUser>)
      reads this
      ensures r.Some? <==> exists i :: 0 <= i < |users| && users[i].id == id
      ensures r.Some? ==> exists u :: u in users && u.id == id && r.value == SensitiveView(u)
    {
      var found := Find(id);
      if found.Some? then Some(SensitiveView(found.value)) else None
    }

    /** `User.updateTwoFactorSecret`: the new secret, two-factor off and not verified. */
    method UpdateTwoFactorSecret(id: int, encryptedSecret: string)
      requires Valid()
      modifies this`users
      ensures Valid()
      ensures UpdatedWhere(old(users), users, id, (u: UserRow) => WithSecret(u, encryptedSecret))
    {
      users := seq(|users|, i requires 0 <= i < |users| reads this =>
        if users[i].id == id then WithSecret(users[i], encryptedSecret) else users[i]);
    }

    /** `User.markTwoFactorVerified`: two-factor on and stamped, the secret kept. */
    method MarkTwoFactorVerified(id: int, now: int)
      requires Valid()
      modifies this`users
      ensures Valid()
      ensures UpdatedWhere(old(users), users, id, (u: UserRow) => u.(twoFactorEnabled := true, twoFactorVerifiedAt := Some(now)))
    {
      users := seq(|users|, i requires 0 <= i < |users| reads this =>
        if users[i].id == id then users[i].(twoFactorEnabled := true, twoFactorVerifiedAt := Some(now)) else users[i]);
    }

    /** `User.disableTwoFactor`: secret, flag and stamp cleared together. */
    method DisableTwoFactor(id: int)
      requires Valid()
      modifies this`users
      ensures Valid()
      ensures UpdatedWhere(old(users), users, id,
                           (u: UserRow) => u.(twoFactorEnabled := false, twoFactorSecret := None, twoFactorVerifiedAt := None))
    {
      users := seq(|users|, i requires 0 <= i < |users| reads this =>
        if users[i].id == id then users[i].(twoFactorEnabled := false, twoFactorSecret := None, twoFactorVerifiedAt := None)
        else users[i]);
    }
  }

  /** After an update of one user, finding that user by id returns the updated row. */
  lemma FindAfterUpdate(before: seq<UserRow>, after: seq<UserRow>, id: int, update: UserRow -> UserRow, u: UserRow)
    requires UpdatedWhere(before, after, id, update)
    requires u in before && u.id == id
    requires update(u).id == id
    ensures update(u) in after
  {
    var i :| 0 <= i < |before| && before[i] == u;
    assert after[i] == update(u);
  }
}
