/** User administration (linux/controllers/usercontroller.js): listing, lookup,
    creation with a unique email, the eight-field overwrite, delete, and the
    active flag toggle. */
module Users {
  import opened Common
  import opened Schema
  import opened Query

  /** `JOIN user_roles ur ON u.role_id = ur.role_id`: a user without a known
      role is not listed. */
  predicate HasRole(roles: map<string, int>, u: User)
  {
    u.roleId.Some? && u.roleId.value in roles.Values
  }

  /** No two users share an email. */
  ghost predicate UniqueEmails(users: map<int, User>)
  {
    forall a, b :: a in users && b in users && users[a].email == users[b].email ==> a == b
  }

  predicate EmailTaken(users: map<int, User>, email: string)
  {
    exists k :: k in users && users[k].email == email
  }

  /** GET /users: every user with a known role, newest first. */
  method GetAllUsers(db: Db) returns (code: int, ids: seq<int>)
    ensures code == Ok
    ensures forall i :: 0 <= i < |ids| ==> ids[i] in db.users && HasRole(db.userRoles, db.users[ids[i]])
    ensures forall k :: k in db.users && HasRole(db.userRoles, db.users[k]) ==> k in ids
    ensures Distinct(ids)
    ensures forall i, j :: 0 <= i < j < |ids| ==> db.users[ids[i]].createdAt >= db.users[ids[j]].createdAt
  {
    var roles := db.userRoles;
    var table := db.users;
    ids := SelectOrdered(table,
      (k: int, u: User) => HasRole(roles, u),
      (k: int) => if k in table then table[k].createdAt else 0,
      Desc);
    code := Ok;
  }

  /** GET /users/:id: 404 when there is no such user (or, through the role
      join, when it has no known role). */
  method GetUserById(db: Db, id: int) returns (code: int, row: Option<User>)
    ensures code == NotFound <==> !(id in db.users && HasRole(db.userRoles, db.users[id]))
    ensures code == NotFound ==> row == None
    ensures code != NotFound ==> code == Ok && row == Some(db.users[id])
  {
    if id !in db.users || !HasRole(db.userRoles, db.users[id]) {
      return NotFound, None;
    }
    code, row := Ok, Some(db.users[id]);
  }

  /** The fields POST /users accepts besides the email and the password. */
  datatype Profile = Profile(
    name: Option<string>,
    phone: Option<string>,
    roleId: Option<int>,
    churchId: Option<int>,
    birthday: Option<string>,
    ordinationDate: Option<string>,
    feastDate: Option<string>,
    motto: Option<string>)

  function NewUser(p: Profile, email: string, passwordHash: string, now: int): User
    requires p.name.Some?
  {
    User(p.name.value, email, passwordHash, p.phone, p.churchId, p.roleId, p.birthday, p.ordinationDate,
      p.feastDate, p.motto, true, now)
  }

  /** POST /users: refused (400) when the email is taken; the password is
      hashed by bcrypt, which throws (500) when it is missing; an absent name
      or email is bound as NULL and the INSERT is rejected (500); the new
      user is active. An absent email matches no row, so it is never taken. */
  method CreateUser(db: Db, email: Option<string>, password: Option<string>, p: Profile, hash: string -> string,
                    now: int)
    returns (code: int, userId: Option<int>)
    requires db.Valid()
    modifies db`users, db`nextUserId
    ensures db.Valid()
    ensures UniqueEmails(old(db.users)) ==> UniqueEmails(db.users)
    ensures email.Some? && EmailTaken(old(db.users), email.value) ==>
      code == BadRequest && userId == None && unchanged(db)
    ensures !(email.Some? && EmailTaken(old(db.users), email.value)) && (password.None? || email.None? || p.name.None?) ==>
      code == ServerError && userId == None && unchanged(db)
    ensures email.Some? && !EmailTaken(old(db.users), email.value) && password.Some? && p.name.Some? ==>
      && code == Created
      && userId == Some(old(db.nextUserId))
      && userId.value !in old(db.users)
      && db.users == old(db.users)[userId.value := NewUser(p, email.value, hash(password.value), now)]
  {
    if email.Some? && EmailTaken(db.users, email.value) {
      return BadRequest, None;
    }
    if password.None? || email.None? || p.name.None? {
      return ServerError, None;
    }
    var id := db.nextUserId;
    db.users := db.users[id := NewUser(p, email.value, hash(password.value), now)];
    db.nextUserId := id + 1;
    code, userId := Created, Some(id);
  }

  /** The fields PUT /users/:id overwrites. */
  datatype ProfileUpdate = ProfileUpdate(
    name: Option<string>,
    email: Option<string>,
    phone: Option<string>,
    churchId: Option<int>,
    birthday: Option<string>,
    ordinationDate: Option<string>,
    feastDate: Option<string>,
    motto: Option<string>)

  /** The user after the overwrite: the eight fields replaced; role, password
      hash, active flag and creation time kept. */
  function Overwritten(u: User, q: ProfileUpdate): (r: User)
    requires q.name.Some? && q.email.Some?
    ensures r.roleId == u.roleId && r.passwordHash == u.passwordHash
    ensures r.isActive == u.isActive && r.createdAt == u.createdAt
    ensures r.name == q.name.value && r.email == q.email.value && r.phone == q.phone && r.churchId == q.churchId
    ensures r.birthday == q.birthday && r.ordinationDate == q.ordinationDate
    ensures r.feastDate == q.feastDate && r.motto == q.motto
  {
    u.(name := q.name.value, email := q.email.value, phone := q.phone, churchId := q.churchId, birthday := q.birthday,
       ordinationDate := q.ordinationDate, feastDate := q.feastDate, motto := q.motto)
  }

  /** PUT /users/:id. A matched row cannot take NULL for its name or email:
      with either absent the UPDATE is rejected (500). */
  method UpdateUser(db: Db, id: int, q: ProfileUpdate) returns (code: int)
    requires db.Valid()
    modifies db`users
    ensures db.Valid()
    ensures id !in old(db.users) ==> code == NotFound && db.users == old(db.users)
    ensures id in old(db.users) && (q.name.None? || q.email.None?) ==>
      code == ServerError && db.users == old(db.users)
    ensures id in old(db.users) && q.name.Some? && q.email.Some? ==>
      code == Ok && db.users == old(db.users)[id := Overwritten(old(db.users)[id], q)]
  {
    if id !in db.users {
      return NotFound;
    }
    if q.name.None? || q.email.None? {
      return ServerError;
    }
    db.users := db.users[id := Overwritten(db.users[id], q)];
    code := Ok;
  }

  /** Unlike creation, the overwrite does not check the email: it can give
      two users the same one. */
  lemma UpdateMayDuplicateEmail(u1: User, u2: User)
    requires u1.email != u2.email
    ensures UniqueEmails(map[1 := u1, 2 := u2])
    ensures !UniqueEmails(map[1 := u1, 2 := Overwritten(u2, ProfileUpdate(Some(u2.name), Some(u1.email), u2.phone,
      u2.churchId, u2.birthday, u2.ordinationDate, u2.feastDate, u2.motto))])
  {
    var m := map[1 := u1, 2 := Overwritten(u2, ProfileUpdate(Some(u2.name), Some(u1.email), u2.phone,
      u2.churchId, u2.birthday, u2.ordinationDate, u2.feastDate, u2.motto))];
    assert m[1].email == m[2].email;
  }

  /** DELETE /users/:id: removes that user only. */
  method DeleteUser(db: Db, id: int) returns (code: int)
    requires db.Valid()
    modifies db`users
    ensures db.Valid()
    ensures id !in old(db.users) ==> code == NotFound && db.users == old(db.users)
    ensures id in old(db.users) ==> code == Ok && db.users == old(db.users) - {id}
  {
    if id !in db.users {
      return NotFound;
    }
    db.users := db.users - {id};
    code := Ok;
  }

  /** `SET is_active = NOT is_active`. */
  function Toggled(u: User): (r: User)
    ensures r.isActive == !u.isActive
    ensures r.(isActive := u.isActive) == u
  {
    u.(isActive := !u.isActive)
  }

  /** Toggling twice restores the user. */
  lemma ToggleTwice(u: User)
    ensures Toggled(Toggled(u)) == u
  {
  }

  /** PATCH /users/:id/toggle-status. */
  method ToggleUserStatus(db: Db, id: int) returns (code: int)
    requires db.Valid()
    modifies db`users
    ensures db.Valid()
    ensures id !in old(db.users) ==> code == NotFound && db.users == old(db.users)
    ensures id in old(db.users) ==> code == Ok && db.users == old(db.users)[id := Toggled(old(db.users)[id])]
  {
    if id !in db.users {
      return NotFound;
    }
    db.users := db.users[id := Toggled(db.users[id])];
    code := Ok;
  }
}
