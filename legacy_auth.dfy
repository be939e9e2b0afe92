/** The older authentication routes (routes/auth.js): registration without
    any church check, login, the unimplemented current-user route, and the
    same password reset as the newer routes. */
module LegacyAuth {
  import opened Common
  import opened Schema
  import opened Users
  import opened Auth

  /** Why the older registration is refused with 400. */
  datatype LegacyRefusal = FieldsRequired | UserExists

  /** The older validation: only the three credentials and the email's
      uniqueness are checked. */
  function LegacyValidate(users: map<int, User>, req: RegisterRequest): (r: Option<LegacyRefusal>)
    ensures r == Some(FieldsRequired) <==> MissingCredentials(req)
    ensures r == Some(UserExists) <==> !MissingCredentials(req) && EmailTaken(users, req.email.value)
    ensures r == None <==> !MissingCredentials(req) && !EmailTaken(users, req.email.value)
  {
    if MissingCredentials(req) then Some(FieldsRequired)
    else if EmailTaken(users, req.email.value) then Some(UserExists)
    else None
  }

  /** The older registration accepts every request the newer one accepts, and
      also those whose church is missing or unknown. */
  lemma LegacyIsLaxer(users: map<int, User>, churches: map<int, Church>, req: RegisterRequest)
    ensures Validate(users, churches, req).None? ==> LegacyValidate(users, req).None?
    ensures Validate(users, churches, req) == Some(MissingChurch) && !EmailTaken(users, req.email.value) ==>
      LegacyValidate(users, req).None?
    ensures Validate(users, churches, req) == Some(UnknownChurch) ==> LegacyValidate(users, req).None?
    ensures LegacyValidate(users, req).None? <==>
      || Validate(users, churches, req).None?
      || Validate(users, churches, req) == Some(UnknownChurch)
      || (Validate(users, churches, req) == Some(MissingChurch) && !EmailTaken(users, req.email.value))
  {
  }

  /** POST /register (older): the church id is stored as given and the role
      defaults to 1. After the insert, a user without a known role makes the
      re-read `userData[0]` throw, and a missing signing secret makes jwt
      throw; both answer 500 with the user already inserted. */
  method LegacyRegister(db: Db, req: RegisterRequest, hash: string -> string, sign: (int, int) -> string,
                        secret: Option<string>, now: int)
    returns (code: int, refusal: Option<LegacyRefusal>, token: Option<string>, user: Option<PublicUser>)
    requires db.Valid()
    modifies db`users, db`nextUserId
    ensures db.Valid()
    ensures refusal == LegacyValidate(old(db.users), req)
    ensures refusal.Some? ==> code == BadRequest && token == None && user == None && unchanged(db)
    ensures refusal.None? ==>
      && db.nextUserId == old(db.nextUserId) + 1
      && old(db.nextUserId) !in old(db.users)
      && db.users == old(db.users)[old(db.nextUserId) := Registered(req, req.churchId, hash, now)]
    ensures refusal.None? && (!HasRole(db.userRoles, Registered(req, req.churchId, hash, now)) || !TruthyText(secret)) ==>
      code == ServerError && token == None && user == None
    ensures refusal.None? && HasRole(db.userRoles, Registered(req, req.churchId, hash, now)) && TruthyText(secret) ==>
      && code == Created
      && user == Some(Public(old(db.nextUserId), Registered(req, req.churchId, hash, now)))
      && token == Some(sign(old(db.nextUserId), OrDefault(req.roleId, 1)))
  {
    refusal := LegacyValidate(db.users, req);
    if refusal.Some? {
      return BadRequest, refusal, None, None;
    }
    var id := db.nextUserId;
    var u := Registered(req, req.churchId, hash, now);
    db.users := db.users[id := u];
    db.nextUserId := id + 1;
    var found;
    code, found := GetUserById(db, id);
    if code == NotFound || !TruthyText(secret) {
      return ServerError, refusal, None, None;
    }
    code, token, user := Created, Some(sign(id, u.roleId.value)), Some(Public(id, u));
  }

  /** POST /login (older): the shared credential check; signing needs the
      configured secret and throws (500) without it. */
  method LegacyLogin(db: Db, email: Option<string>, password: Option<string>, compare: (string, string) -> bool,
                     sign: (int, int) -> string, secret: Option<string>)
    returns (code: int, token: Option<string>, user: Option<PublicUser>)
    ensures code == BadRequest <==> !TruthyText(email) || !TruthyText(password)
    ensures code == Ok || code == BadRequest || code == Unauthorized || code == ServerError
    ensures code != Ok ==> token == None && user == None
    ensures code == Ok ==>
      && TruthyText(secret)
      && (exists k :: k in db.users && CanLogIn(db.userRoles, db.users[k], email.value)
            && compare(password.value, db.users[k].passwordHash)
            && user == Some(Public(k, db.users[k])) && token == Some(sign(k, db.users[k].roleId.value)))
    ensures TruthyText(email) && TruthyText(password) &&
            (forall k :: k in db.users && CanLogIn(db.userRoles, db.users[k], email.value) ==>
               !compare(password.value, db.users[k].passwordHash)) ==>
      code == Unauthorized
    ensures code == ServerError ==> !TruthyText(secret)
    ensures TruthyText(email) && TruthyText(password) &&
            (exists k :: k in db.users && CanLogIn(db.userRoles, db.users[k], email.value)) &&
            (forall k :: k in db.users && CanLogIn(db.userRoles, db.users[k], email.value) ==>
               compare(password.value, db.users[k].passwordHash)) ==>
      (TruthyText(secret) ==> code == Ok) && (!TruthyText(secret) ==> code == ServerError)
  {
    var id;
    code, id := CheckCredentials(db, email, password, compare);
    if code != Ok {
      return code, None, None;
    }
    if !TruthyText(secret) {
      return ServerError, None, None;
    }
    var u := db.users[id.value];
    token, user := Some(sign(id.value, u.roleId.value)), Some(Public(id.value, u));
  }

  /** GET /me: not implemented. */
  method Me() returns (code: int)
    ensures code == NotImplemented
  {
    code := NotImplemented;
  }
}
