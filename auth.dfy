/** Registration, login, logout and password-reset requests
    (church-management-backend/routes/auth.js). Password hashing and
    comparison (bcrypt) and token signing (jwt) are oracles handed in by the
    caller. */
module Auth {
  import opened Common
  import opened Schema
  import opened Query
  import opened Users

  /** The body of POST /register. */
  datatype RegisterRequest = RegisterRequest(
    name: Option<string>,
    email: Option<string>,
    password: Option<string>,
    phone: Option<string>,
    churchId: Option<int>,
    roleId: Option<int>)

  /** `!name || !email || !password`. */
  predicate MissingCredentials(req: RegisterRequest)
  {
    !TruthyText(req.name) || !TruthyText(req.email) || !TruthyText(req.password)
  }

  /** Why a registration is refused with 400, one reason per check. */
  datatype Refusal = MissingFields | MissingChurch | DuplicateEmail | UnknownChurch

  /** The validation chain of POST /register, first failing check first. */
  function Validate(users: map<int, User>, churches: map<int, Church>, req: RegisterRequest): (r: Option<Refusal>)
    ensures r == Some(MissingFields) <==> MissingCredentials(req)
    ensures r == Some(MissingChurch) <==> !MissingCredentials(req) && !TruthyId(req.churchId)
    ensures r == Some(DuplicateEmail) <==>
      !MissingCredentials(req) && TruthyId(req.churchId) && EmailTaken(users, req.email.value)
    ensures r == Some(UnknownChurch) <==>
      && !MissingCredentials(req) && TruthyId(req.churchId) && !EmailTaken(users, req.email.value)
      && req.churchId.value !in churches
    ensures r == None <==>
      && !MissingCredentials(req) && TruthyId(req.churchId) && !EmailTaken(users, req.email.value)
      && req.churchId.value in churches
  {
    if MissingCredentials(req) then Some(MissingFields)
    else if !TruthyId(req.churchId) then Some(MissingChurch)
    else if EmailTaken(users, req.email.value) then Some(DuplicateEmail)
    else if req.churchId.value !in churches then Some(UnknownChurch)
    else None
  }

  /** The checks run in order: missing credentials are reported whatever the
      church and the email, and a missing church before a duplicate email. */
  lemma ChecksInOrder(users: map<int, User>, churches: map<int, Church>, req: RegisterRequest, c: Option<int>)
    ensures MissingCredentials(req) ==> Validate(users, churches, req.(churchId := c)) == Some(MissingFields)
    ensures !MissingCredentials(req) && !TruthyId(req.churchId) ==>
      Validate(users, churches, req) == Some(MissingChurch)
    ensures Validate(users, churches, req) == Some(UnknownChurch) ==> !EmailTaken(users, req.email.value)
  {
  }

  /** The user row a successful registration inserts. */
  function Registered(req: RegisterRequest, churchId: Option<int>, hash: string -> string, now: int): (u: User)
    requires !MissingCredentials(req)
    ensures u.name == req.name.value && u.email == req.email.value && u.passwordHash == hash(req.password.value)
    ensures u.roleId == Some(OrDefault(req.roleId, 1)) && u.churchId == churchId && u.isActive
  {
    User(req.name.value, req.email.value, hash(req.password.value), req.phone, churchId,
      Some(OrDefault(req.roleId, 1)), None, None, None, None, true, now)
  }

  /** A user as the handlers return it: the selected columns, without the
      password hash; the role is given by its id. */
  datatype PublicUser = PublicUser(
    userId: int,
    name: string,
    email: string,
    phone: Option<string>,
    churchId: Option<int>,
    birthday: Option<string>,
    ordinationDate: Option<string>,
    feastDate: Option<string>,
    motto: Option<string>,
    isActive: bool,
    roleId: int)

  function Public(id: int, u: User): (p: PublicUser)
    requires u.roleId.Some?
    ensures p.userId == id && p.name == u.name && p.email == u.email && p.phone == u.phone
    ensures p.churchId == u.churchId && p.birthday == u.birthday && p.ordinationDate == u.ordinationDate
    ensures p.feastDate == u.feastDate && p.motto == u.motto && p.isActive == u.isActive
    ensures p.roleId == u.roleId.value
  {
    PublicUser(id, u.name, u.email, u.phone, u.churchId, u.birthday, u.ordinationDate, u.feastDate, u.motto,
      u.isActive, u.roleId.value)
  }

  /** POST /register: on success the user is inserted with role 1 unless one
      is given, re-read through the role join, and signed a token. If the
      re-read finds nothing the user stays inserted and the answer is 500. */
  method Register(db: Db, req: RegisterRequest, hash: string -> string, sign: (int, int) -> string, now: int)
    returns (code: int, refusal: Option<Refusal>, token: Option<string>, user: Option<PublicUser>)
    requires db.Valid()
    modifies db`users, db`nextUserId
    ensures db.Valid()
    ensures refusal == Validate(old(db.users), db.churches, req)
    ensures refusal.Some? ==> code == BadRequest && token == None && user == None && unchanged(db)
    ensures refusal.None? ==>
      && db.nextUserId == old(db.nextUserId) + 1
      && old(db.nextUserId) !in old(db.users)
      && db.users == old(db.users)[old(db.nextUserId) := Registered(req, req.churchId, hash, now)]
    ensures refusal.None? && !HasRole(db.userRoles, Registered(req, req.churchId, hash, now)) ==>
      code == ServerError && token == None && user == None
    ensures refusal.None? && HasRole(db.userRoles, Registered(req, req.churchId, hash, now)) ==>
      && code == Created
      && user == Some(Public(old(db.nextUserId), Registered(req, req.churchId, hash, now)))
      && token == Some(sign(old(db.nextUserId), OrDefault(req.roleId, 1)))
  {
    refusal := Validate(db.users, db.churches, req);
    if refusal.Some? {
      return BadRequest, refusal, None, None;
    }
    var id := db.nextUserId;
    var u := Registered(req, req.churchId, hash, now);
    db.users := db.users[id := u];
    db.nextUserId := id + 1;
    var found;
    code, found := GetUserById(db, id);
    if code == NotFound {
      return ServerError, refusal, None, None;
    }
    code, token, user := Created, Some(sign(id, u.roleId.value)), Some(Public(id, u));
  }

  /*** Login ***/

  /** `WHERE u.email = ? AND u.is_active = true`, through the role join. */
  predicate CanLogIn(roles: map<string, int>, u: User, email: string)
  {
    u.email == email && u.isActive && HasRole(roles, u)
  }

  /** The credential check both login routes share: 400 without an email or a
      password; 401 when no active user has that email or when the password
      does not match the first one found. */
  method CheckCredentials(db: Db, email: Option<string>, password: Option<string>, compare: (string, string) -> bool)
    returns (code: int, userId: Option<int>)
    ensures code == BadRequest <==> !TruthyText(email) || !TruthyText(password)
    ensures code == Ok || code == BadRequest || code == Unauthorized
    ensures code != Ok <==> userId == None
    ensures code == Ok ==>
      && userId.value in db.users
      && CanLogIn(db.userRoles, db.users[userId.value], email.value)
      && compare(password.value, db.users[userId.value].passwordHash)
    ensures TruthyText(email) && TruthyText(password) &&
            (forall k :: k in db.users ==> !CanLogIn(db.userRoles, db.users[k], email.value)) ==>
      code == Unauthorized
    ensures TruthyText(email) && TruthyText(password) &&
            (forall k :: k in db.users && CanLogIn(db.userRoles, db.users[k], email.value) ==>
               !compare(password.value, db.users[k].passwordHash)) ==>
      code == Unauthorized
    ensures TruthyText(email) && TruthyText(password) &&
            (exists k :: k in db.users && CanLogIn(db.userRoles, db.users[k], email.value)) &&
            (forall k :: k in db.users && CanLogIn(db.userRoles, db.users[k], email.value) ==>
               compare(password.value, db.users[k].passwordHash)) ==>
      code == Ok
  {
    if !TruthyText(email) || !TruthyText(password) {
      return BadRequest, None;
    }
    var table := db.users;
    var roles := db.userRoles;
    var rows := SelectOrdered(table, (k: int, u: User) => CanLogIn(roles, u, email.value), (k: int) => 0, Asc);
    if rows == [] {
      return Unauthorized, None;
    }
    var id := rows[0];
    if !compare(password.value, table[id].passwordHash) {
      return Unauthorized, None;
    }
    code, userId := Ok, Some(id);
  }

  /** POST /login: a token and the user without its password hash. The
      signing secret falls back to a built-in default, so signing never fails. */
  method Login(db: Db, email: Option<string>, password: Option<string>, compare: (string, string) -> bool,
               sign: (int, int) -> string)
    returns (code: int, token: Option<string>, user: Option<PublicUser>)
    ensures code == BadRequest <==> !TruthyText(email) || !TruthyText(password)
    ensures code == Ok || code == BadRequest || code == Unauthorized
    ensures code != Ok ==> token == None && user == None
    ensures code == Ok ==>
      exists k :: k in db.users && CanLogIn(db.userRoles, db.users[k], email.value)
        && compare(password.value, db.users[k].passwordHash)
        && user == Some(Public(k, db.users[k])) && token == Some(sign(k, db.users[k].roleId.value))
    ensures TruthyText(email) && TruthyText(password) &&
            (forall k :: k in db.users && CanLogIn(db.userRoles, db.users[k], email.value) ==>
               !compare(password.value, db.users[k].passwordHash)) ==>
      code == Unauthorized
    ensures TruthyText(email) && TruthyText(password) &&
            (exists k :: k in db.users && CanLogIn(db.userRoles, db.users[k], email.value)) &&
            (forall k :: k in db.users && CanLogIn(db.userRoles, db.users[k], email.value) ==>
               compare(password.value, db.users[k].passwordHash)) ==>
      code == Ok
  {
    var id;
    code, id := CheckCredentials(db, email, password, compare);
    if code != Ok {
      return code, None, None;
    }
    var u := db.users[id.value];
    token, user := Some(sign(id.value, u.roleId.value)), Some(Public(id.value, u));
  }

  /** POST /logout: nothing to undo on the server. */
  method Logout() returns (code: int)
    ensures code == Ok
  {
    code := Ok;
  }

  /*** Password reset ***/

  /** The two success messages of POST /reset-password. */
  datatype ResetNotice = IfAccountExists | NotImplementedYet

  /** POST /reset-password as written: 400 without an email, otherwise success
      and no change; but the message tells whether the account exists. */
  method ResetPassword(db: Db, email: Option<string>) returns (code: int, notice: Option<ResetNotice>)
    ensures !TruthyText(email) <==> code == BadRequest
    ensures !TruthyText(email) ==> notice == None
    ensures TruthyText(email) ==> code == Ok && notice.Some?
    ensures TruthyText(email) ==> (notice == Some(NotImplementedYet) <==> EmailTaken(db.users, email.value))
    ensures TruthyText(email) ==> notice == Some(ResetNoticeAsWritten(db.users, email.value))
  {
    if !TruthyText(email) {
      return BadRequest, None;
    }
    if !EmailTaken(db.users, email.value) {
      return Ok, Some(IfAccountExists);
    }
    code, notice := Ok, Some(NotImplementedYet);
  }

  /** The notice POST /reset-password answers with, as written. */
  function ResetNoticeAsWritten(users: map<int, User>, email: string): ResetNotice
  {
    if EmailTaken(users, email) then NotImplementedYet else IfAccountExists
  }

  /** Two stores that differ only in whether the email has an account get
      different notices, against the handler's stated intent not to reveal
      that. */
  lemma ResetRevealsAccount(u: User)
    ensures ResetNoticeAsWritten(map[], u.email) != ResetNoticeAsWritten(map[1 := u], u.email)
  {
    assert EmailTaken(map[1 := u], u.email) by {
      assert map[1 := u][1].email == u.email;
    }
  }

  /** The notice as intended: the same whether or not the account exists. */
  function ResetNoticeFixed(users: map<int, User>, email: string): ResetNotice
  {
    IfAccountExists
  }

  /** With the intended notice two stores are indistinguishable. */
  lemma ResetFixedHidesAccount(users1: map<int, User>, users2: map<int, User>, email: string)
    ensures ResetNoticeFixed(users1, email) == ResetNoticeFixed(users2, email)
  {
  }

  /** The corrected reset: 400 without an email, otherwise the same success
      answer for every store. */
  method ResetPasswordFixed(db: Db, email: Option<string>) returns (code: int, notice: Option<ResetNotice>)
    ensures !TruthyText(email) <==> code == BadRequest
    ensures !TruthyText(email) ==> notice == None
    ensures TruthyText(email) ==> code == Ok && notice == Some(IfAccountExists)
  {
    if !TruthyText(email) {
      return BadRequest, None;
    }
    code, notice := Ok, Some(ResetNoticeFixed(db.users, email.value));
  }
}
