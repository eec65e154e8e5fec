/** The user directory: a table of users keyed by id whose emails are unique. */
module Users {
  import opened Common

  datatype User = User(id: UserId, email: string, name: string, phone: Option<string>, address: Option<string>)

  /** The fields a new user is created from (the id is minted on insert). */
  datatype NewUser = NewUser(email: string, name: string, phone: Option<string>, address: Option<string>)

  /** The fields of an update body, each unsent, `null` or sent with a value. */
  datatype UserPatch = UserPatch(email: Field<string>, name: Field<string>, phone: Field<string>, address: Field<string>)

  /** The update writes `null` into a NOT NULL column (email or name), which
      the save refuses. */
  predicate NullsRequired(p: UserPatch)
  {
    p.email.Null? || p.name.Null?
  }

  /** No two users of the table share an email. */
  ghost predicate EmailsUnique(users: map<UserId, User>)
  {
    forall a, b :: a in users && b in users && users[a].email == users[b].email ==> a == b
  }

  /** Some user of the table has this email (the `findOne({ where: { email } })` query). */
  predicate EmailTaken(users: map<UserId, User>, email: string)
  {
    exists k :: k in users && users[k].email == email
  }

  /** The guard of an update: a non-empty email that differs from the user's
      own and that some user already has. */
  predicate UpdateConflicts(users: map<UserId, User>, id: UserId, patch: UserPatch)
    requires id in users
  {
    patch.email.Sent? && patch.email.value != "" && patch.email.value != users[id].email
    && EmailTaken(users, patch.email.value)
  }

  /** Object.assign of the update body onto a user: a sent field overwrites,
      a `null` clears phone or address, an unsent field and the id are kept. */
  function Patched(u: User, p: UserPatch): (r: User)
    ensures r.id == u.id
  {
    User(u.id, Merge(p.email, u.email), Merge(p.name, u.name),
         MergeNullable(p.phone, u.phone), MergeNullable(p.address, u.address))
  }

  /** An update that sends no field leaves the user as it was. */
  lemma PatchedNothing(u: User)
    ensures Patched(u, UserPatch(Unsent, Unsent, Unsent, Unsent)) == u
  {
  }

  /** Sending the same update twice has the effect of sending it once. */
  lemma PatchedTwice(u: User, p: UserPatch)
    ensures Patched(Patched(u, p), p) == Patched(u, p)
  {
  }

  /** A `null` phone or address clears that column and touches nothing else. */
  lemma PatchedNullClears(u: User)
    ensures Patched(u, UserPatch(Unsent, Unsent, Null, Unsent)) == u.(phone := None)
    ensures Patched(u, UserPatch(Unsent, Unsent, Unsent, Null)) == u.(address := None)
  {
  }

  /** An update that sends no email, or the user's own email, never conflicts. */
  lemma OwnEmailNeverConflicts(users: map<UserId, User>, id: UserId, patch: UserPatch)
    requires id in users
    requires !patch.email.Sent? || patch.email == Sent(users[id].email)
    ensures !UpdateConflicts(users, id, patch)
  {
  }

  /** With unique emails, an update conflicts exactly when it sends a
      non-empty email that another user has. */
  lemma UpdateConflictsIff(users: map<UserId, User>, id: UserId, patch: UserPatch)
    requires EmailsUnique(users) && id in users
    ensures UpdateConflicts(users, id, patch) <==>
      patch.email.Sent? && patch.email.value != ""
      && exists k :: k in users && k != id && users[k].email == patch.email.value
  {
    if UpdateConflicts(users, id, patch) {
      var k :| k in users && users[k].email == patch.email.value;
      assert k != id;
    }
  }

  /** Inserting a user whose email is free keeps emails unique. */
  lemma InsertKeepsEmailsUnique(users: map<UserId, User>, u: User)
    requires EmailsUnique(users)
    requires u.id !in users && !EmailTaken(users, u.email)
    ensures EmailsUnique(users[u.id := u])
  {
    var m := users[u.id := u];
    forall a, b | a in m && b in m && m[a].email == m[b].email
      ensures a == b
    {
      if a != u.id && b != u.id {
        assert users[a].email == users[b].email;
      }
    }
  }

  /** An update that passes the conflict guard with a non-empty email keeps emails unique. */
  lemma PatchKeepsEmailsUnique(users: map<UserId, User>, id: UserId, patch: UserPatch)
    requires EmailsUnique(users) && id in users
    requires patch.email != Sent("")
    requires !UpdateConflicts(users, id, patch)
    ensures EmailsUnique(users[id := Patched(users[id], patch)])
  {
    var u := Patched(users[id], patch);
    forall k | k in users && k != id
      ensures users[k].email != u.email
    {
      if u.email != users[id].email {
        assert !EmailTaken(users, u.email);
      }
    }
  }

  /** Selecting the ids of a table with consistent ids lists every user once. */
  lemma SelectListsUsers(m: map<UserId, User>, n: nat)
    requires forall k :: k in m ==> m[k].id == k && k < n
    ensures forall u :: u in Select(m, NewestFirst(m.Keys, n)) <==> u.id in m && m[u.id] == u
  {
    var ks := NewestFirst(m.Keys, n);
    var r := Select(m, ks);
    forall u: User | u.id in m && m[u.id] == u
      ensures u in r
    {
      assert u.id in ks;
      var i :| 0 <= i < |ks| && ks[i] == u.id;
      assert r[i] == u;
    }
  }

  /** Selecting the ids newest first lists the users newest first. */
  lemma SelectUsersNewestFirst(m: map<UserId, User>, n: nat)
    requires forall k :: k in m ==> m[k].id == k && k < n
    ensures var r := Select(m, NewestFirst(m.Keys, n));
      forall i, j :: 0 <= i < j < |r| ==> r[i].id > r[j].id
  {
    var ks := NewestFirst(m.Keys, n);
    var r := Select(m, ks);
    forall i, j | 0 <= i < j < |r|
      ensures r[i].id > r[j].id
    {
      assert r[i].id == ks[i] && r[j].id == ks[j];
    }
  }

  /** UsersService: the `users` repository and the operations on it. */
  class UsersService {
    var users: map<UserId, User>
    var nextId: nat   // the fresh-id supplier: every id in use is below it

    ghost predicate Valid()
      reads this
    {
      && (forall k :: k in users ==> users[k].id == k && k < nextId)
      && EmailsUnique(users)
    }

    constructor ()
      ensures Valid() && users == map[]
    {
      users := map[];
      nextId := 0;
    }

    /** `create`: refuses an email already in use, otherwise stores a new user. */
    method Create(dto: NewUser) returns (r: Result<User>)
      requires Valid()
      modifies this
      ensures Valid()
      ensures old(EmailTaken(users, dto.email)) ==> r == Failure(EmailInUse) && unchanged(this)
      ensures !old(EmailTaken(users, dto.email)) ==>
        && r.Success? && r.value.id !in old(users)
        && r.value == User(r.value.id, dto.email, dto.name, dto.phone, dto.address)
        && users == old(users)[r.value.id := r.value]
    {
      if exists k :: k in users && users[k].email == dto.email {
        return Failure(EmailInUse);
      }
      var u := User(nextId, dto.email, dto.name, dto.phone, dto.address);
      InsertKeepsEmailsUnique(users, u);
      users := users[u.id := u];
      nextId := nextId + 1;
      r := Success(u);
    }

    /** `findAll`: every user of the table, once each, newest first (ids are
        minted in creation order). */
    function FindAll(): (r: seq<User>)
      reads this
      requires Valid()
      ensures forall u :: u in r <==> u.id in users && users[u.id] == u
      ensures forall i, j :: 0 <= i < j < |r| ==> r[i].id > r[j].id
    {
      SelectListsUsers(users, nextId);
      SelectUsersNewestFirst(users, nextId);
      Select(users, NewestFirst(users.Keys, nextId))
    }

    /** `findOne`: the user with this id, or NotFound. */
    method FindOne(id: UserId) returns (r: Result<User>)
      ensures id in users ==> r == Success(users[id])
      ensures id !in users ==> r == Failure(NotFound(UserEntity))
    {
      if id in users {
        r := Success(users[id]);
      } else {
        r := Failure(NotFound(UserEntity));
      }
    }

    /** `findByEmail`: the user with this email, if any. */
    method FindByEmail(email: string) returns (r: Option<User>)
      requires Valid()
      ensures r.Some? ==> r.value.id in users && users[r.value.id] == r.value && r.value.email == email
      ensures r.None? <==> !EmailTaken(users, email)
    {
      if exists k :: k in users && users[k].email == email {
        var k :| k in users && users[k].email == email;
        r := Some(users[k]);
      } else {
        r := None;
      }
    }

    /** `update`: NotFound for an unknown id; Conflict when a new, non-empty
        email is already in use; a failed save with no change when the body
        nulls the email or the name; otherwise the body is assigned. */
    method Update(id: UserId, patch: UserPatch) returns (r: Result<User>)
      requires Valid()
      requires patch.email != Sent("")   // assumed: the update DTO validates email as the create DTO's @IsEmail does
      modifies this
      ensures Valid()
      ensures id !in old(users) ==> r == Failure(NotFound(UserEntity)) && unchanged(this)
      ensures id in old(users) && old(UpdateConflicts(users, id, patch)) ==>
        r == Failure(EmailInUse) && unchanged(this)
      ensures id in old(users) && !old(UpdateConflicts(users, id, patch)) && NullsRequired(patch) ==>
        r == Failure(NotNullViolation) && unchanged(this)
      ensures id in old(users) && !old(UpdateConflicts(users, id, patch)) && !NullsRequired(patch) ==>
        && r == Success(Patched(old(users[id]), patch))
        && users == old(users)[id := r.value]
        && nextId == old(nextId)
    {
      var found := FindOne(id);
      if found.Failure? {
        return found;
      }
      var user := found.value;
      if patch.email.Sent? && patch.email.value != "" && patch.email.value != user.email {
        var existing := FindByEmail(patch.email.value);
        if existing.Some? {
          return Failure(EmailInUse);
        }
      }
      if patch.email.Null? || patch.name.Null? {
        return Failure(NotNullViolation);
      }
      PatchKeepsEmailsUnique(users, id, patch);
      var updated := Patched(user, patch);
      users := users[id := updated];
      r := Success(updated);
    }

    /** `remove`: NotFound for an unknown id, otherwise deletes exactly that user. */
    method Remove(id: UserId) returns (r: Result<()>)
      requires Valid()
      modifies this
      ensures Valid()
      ensures id !in old(users) ==> r == Failure(NotFound(UserEntity)) && unchanged(this)
      ensures id in old(users) ==> r.Success? && users == old(users) - {id} && nextId == old(nextId)
    {
      var found := FindOne(id);
      if found.Failure? {
        return Failure(found.error);
      }
      users := users - {id};
      r := Success(());
    }
  }
}
