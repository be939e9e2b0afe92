/** Notification fan-out and delivery tracking
    (church-management-backend/controllers/notificationController.js).

    A target (type name, optional target id) is resolved over the
    user -> church -> forane -> diocese hierarchy to a set of user ids; the
    notification row is written, then one PENDING recipient row per resolved
    user. Marking a recipient delivered moves its row to SENT and counts the
    attempt. */
module Notifications {
  import opened Common
  import opened Schema
  import opened Query

  /*** Target resolution (the switch on target_type) ***/

  /** `SELECT user_id FROM users WHERE role_id = (SELECT role_id FROM user_roles WHERE name = "PRIEST")`:
      when there is no PRIEST role the sub-select is NULL and nobody matches. */
  function Priests(d: Directory): set<int>
  {
    set u | u in d.users && "PRIEST" in d.roles && d.users[u].roleId == Some(d.roles["PRIEST"])
  }

  /** `WHERE church_id = ?`; a NULL target matches nobody. */
  function ChurchMembers(d: Directory, target: Option<int>): set<int>
  {
    set u | u in d.users && target.Some? && d.users[u].churchId == target
  }

  /** The user's church exists and lies in forane f (`JOIN churches ... WHERE c.forane_id = ?`). */
  predicate InForane(d: Directory, user: User, f: int)
  {
    && user.churchId.Some?
    && user.churchId.value in d.churches
    && d.churches[user.churchId.value].foraneId == Some(f)
  }

  /** The user's church and its forane exist and the forane lies in diocese dio. */
  predicate InDiocese(d: Directory, user: User, dio: int)
  {
    && user.churchId.Some?
    && user.churchId.value in d.churches
    && d.churches[user.churchId.value].foraneId.Some?
    && d.churches[user.churchId.value].foraneId.value in d.foranes
    && d.foranes[d.churches[user.churchId.value].foraneId.value].dioceseId == Some(dio)
  }

  function ForaneMembers(d: Directory, target: Option<int>): set<int>
  {
    set u | u in d.users && target.Some? && InForane(d, d.users[u], target.value)
  }

  function DioceseMembers(d: Directory, target: Option<int>): set<int>
  {
    set u | u in d.users && target.Some? && InDiocese(d, d.users[u], target.value)
  }

  /** `WHERE is_active = 1`: the only audience that looks at is_active. */
  function ActiveUsers(d: Directory): set<int>
  {
    set u | u in d.users && d.users[u].isActive
  }

  /** The recipients of a notification. USER is taken on trust, without
      looking the id up; a target type outside the six cases keeps the
      initial empty list. */
  function Resolve(d: Directory, targetType: string, target: Option<int>): (r: set<int>)
    ensures targetType != "USER" ==> r <= d.users.Keys
    ensures !IsCase(targetType) ==> r == {}
  {
    if targetType == "USER" then (if target.Some? then {target.value} else {})
    else if targetType == "PRIEST" then Priests(d)
    else if targetType == "CHURCH" then ChurchMembers(d, target)
    else if targetType == "FORANE" then ForaneMembers(d, target)
    else if targetType == "DIOCESE" then DioceseMembers(d, target)
    else if targetType == "ALL" then ActiveUsers(d)
    else {}
  }

  predicate IsCase(targetType: string)
  {
    targetType in {"USER", "PRIEST", "CHURCH", "FORANE", "DIOCESE", "ALL"}
  }

  lemma UserTargetIsTakenOnTrust(d: Directory, x: int)
    ensures Resolve(d, "USER", Some(x)) == {x}
    ensures x !in d.users ==> Resolve(d, "USER", Some(x)) !! d.users.Keys
  {
  }

  /** PRIEST reaches every priest whatever the target id. */
  lemma PriestTargetIgnoresId(d: Directory, a: Option<int>, b: Option<int>)
    ensures Resolve(d, "PRIEST", a) == Resolve(d, "PRIEST", b)
    ensures forall u :: u in Resolve(d, "PRIEST", a) <==>
      u in d.users && "PRIEST" in d.roles && d.users[u].roleId == Some(d.roles["PRIEST"])
  {
  }

  /** A forane's audience is the union of the audiences of its churches. */
  lemma {:induction false} ForaneIsUnionOfChurches(d: Directory, f: int, u: int)
    ensures u in Resolve(d, "FORANE", Some(f)) <==>
      exists c :: c in d.churches && d.churches[c].foraneId == Some(f) && u in Resolve(d, "CHURCH", Some(c))
  {
    if u in Resolve(d, "FORANE", Some(f)) {
      var c := d.users[u].churchId.value;
      assert u in Resolve(d, "CHURCH", Some(c));
    }
  }

  /** A diocese's audience is the union of the audiences of its foranes. */
  lemma {:induction false} DioceseIsUnionOfForanes(d: Directory, dio: int, u: int)
    ensures u in Resolve(d, "DIOCESE", Some(dio)) <==>
      exists f :: f in d.foranes && d.foranes[f].dioceseId == Some(dio) && u in Resolve(d, "FORANE", Some(f))
  {
    if u in Resolve(d, "DIOCESE", Some(dio)) {
      var f := d.churches[d.users[u].churchId.value].foraneId.value;
      assert u in Resolve(d, "FORANE", Some(f));
    }
  }

  /** Only ALL filters on is_active: flipping one user's flag changes no
      other audience. */
  lemma ActiveFlagMattersOnlyForAll(d: Directory, u: int, active: bool, targetType: string, target: Option<int>)
    requires u in d.users && targetType != "ALL"
    ensures Resolve(d.(users := d.users[u := d.users[u].(isActive := active)]), targetType, target) == Resolve(d, targetType, target)
  {
    var d' := d.(users := d.users[u := d.users[u].(isActive := active)]);
    forall v
      ensures v in Resolve(d', targetType, target) <==> v in Resolve(d, targetType, target)
    {
      if v in d.users {
        assert d'.users[v].churchId == d.users[v].churchId && d'.users[v].roleId == d.users[v].roleId;
      }
    }
  }

  lemma AllIsTheActiveUsers(d: Directory, target: Option<int>, u: int)
    ensures u in Resolve(d, "ALL", target) <==> u in d.users && d.users[u].isActive
  {
  }

  /** A target type that the target_types table knows but the switch does
      not handle reaches nobody. */
  lemma OtherTypesReachNobody(d: Directory, targetType: string, target: Option<int>)
    requires !IsCase(targetType)
    ensures Resolve(d, targetType, target) == {}
  {
  }

  /** Except for USER, every recipient is a user of the directory, so there
      are never more recipients than users. */
  lemma {:induction false} RecipientsAreUsers(d: Directory, targetType: string, target: Option<int>)
    requires targetType != "USER"
    ensures Resolve(d, targetType, target) <= d.users.Keys
    ensures |Resolve(d, targetType, target)| <= |d.users|
  {
    var r := Resolve(d, targetType, target);
    assert r <= d.users.Keys;
    SubsetCard(r, d.users.Keys);
  }

  lemma {:induction false} SubsetCard(a: set<int>, b: set<int>)
    requires a <= b
    ensures |a| <= |b|
  {
    if a != {} {
      var x := Pick(a);
      SubsetCard(a - {x}, b - {x});
    }
  }

  /** The worked example: diocese 2 has foranes 10 and 11; forane 10 has
      churches 5 and 6, forane 11 has church 8; users 1, 2 are in church 5,
      user 3 in church 6 and user 4 in church 8. */
  lemma DioceseExample()
    ensures
      var none: Option<string> := None;
      var member := (c: int) => User("", "", "", none, Some(c), Some(1), none, none, none, none, true, 0);
      var d := Directory(
        map[1 := member(5), 2 := member(5), 3 := member(6), 4 := member(8)],
        map[5 := Church("", Some(10)), 6 := Church("", Some(10)), 8 := Church("", Some(11))],
        map[10 := Forane("", Some(2)), 11 := Forane("", Some(2))],
        map[]);
      Resolve(d, "DIOCESE", Some(2)) == {1, 2, 3, 4}
  {
    var none: Option<string> := None;
    var member := (c: int) => User("", "", "", none, Some(c), Some(1), none, none, none, none, true, 0);
    var d := Directory(
      map[1 := member(5), 2 := member(5), 3 := member(6), 4 := member(8)],
      map[5 := Church("", Some(10)), 6 := Church("", Some(10)), 8 := Church("", Some(11))],
      map[10 := Forane("", Some(2)), 11 := Forane("", Some(2))],
      map[]);
    assert InDiocese(d, d.users[1], 2) && InDiocese(d, d.users[2], 2);
    assert InDiocese(d, d.users[3], 2) && InDiocese(d, d.users[4], 2);
  }

  /*** Fan-out: the recipient rows ***/

  /** One PENDING row, with no attempt yet, per recipient of notification nid. */
  function FanOut(nid: int, audience: set<int>, pending: int): (rows: map<(int, int), Recipient>)
    ensures forall k :: k in rows <==> k.0 == nid && k.1 in audience
    ensures forall k :: k in rows ==> rows[k] == Recipient(pending, 0, None)
  {
    map u | u in audience :: (nid, u) := Recipient(pending, 0, None)
  }

  /** Exactly one row per recipient: the rows number as many as the recipients. */
  lemma {:induction false} FanOutSize(nid: int, audience: set<int>, pending: int)
    ensures |FanOut(nid, audience, pending)| == |audience|
  {
    PairingSize(nid, audience);
    assert FanOut(nid, audience, pending).Keys == set u | u in audience :: (nid, u);
  }

  lemma {:induction false} PairingSize(nid: int, audience: set<int>)
    ensures |set u | u in audience :: (nid, u)| == |audience|
  {
    if audience != {} {
      var x := Pick(audience);
      var rest := audience - {x};
      PairingSize(nid, rest);
      assert (set u | u in audience :: (nid, u)) == (set u | u in rest :: (nid, u)) + {(nid, x)};
    }
  }

  /** Fresh rows never collide with existing ones: the new notification's id
      is above every id the recipient table refers to. */
  lemma FanOutIsFresh(db: Db, audience: set<int>, pending: int)
    requires db.Valid()
    ensures db.recipients.Keys !! FanOut(db.nextNotificationId, audience, pending).Keys
  {
  }

  /** POST /notifications. */
  method CreateNotification(db: Db, senderId: Option<int>, targetType: string, target: Option<int>,
                            message: Option<string>, now: int)
    returns (code: int, notificationId: Option<int>, recipientsCount: nat)
    requires db.Valid()
    modifies db`notifications, db`nextNotificationId, db`recipients
    ensures db.Valid()
    // an unknown target type is refused before anything is written
    ensures targetType !in db.targetTypes ==>
      && code == BadRequest && notificationId == None && unchanged(db)
    // an absent sender or message is bound as NULL and the INSERT is rejected
    ensures targetType in db.targetTypes && (senderId.None? || message.None?) ==>
      && code == ServerError && notificationId == None && unchanged(db)
    // otherwise the notification row is written first
    ensures targetType in db.targetTypes && senderId.Some? && message.Some? ==>
      && notificationId == Some(old(db.nextNotificationId))
      && db.notifications == old(db.notifications)[old(db.nextNotificationId) :=
           Notification(senderId.value, db.targetTypes[targetType], target, message.value, now)]
    // a USER notification without a target id cannot write its recipient row
    ensures targetType in db.targetTypes && senderId.Some? && message.Some? && targetType == "USER" && target.None? ==>
      code == ServerError && db.recipients == old(db.recipients)
    ensures targetType in db.targetTypes && senderId.Some? && message.Some? && !(targetType == "USER" && target.None?) ==>
      var audience := Resolve(db.Hierarchy(), targetType, target);
      if audience != {} && "PENDING" !in db.deliveryStatuses then
        code == ServerError && db.recipients == old(db.recipients)
      else
        && code == Created
        && recipientsCount == |audience|
        && (audience == {} ==> db.recipients == old(db.recipients))
        && (audience != {} ==>
              db.recipients == old(db.recipients) + FanOut(old(db.nextNotificationId), audience, db.deliveryStatuses["PENDING"]))
  {
    recipientsCount := 0;
    if targetType !in db.targetTypes {
      return BadRequest, None, 0;
    }
    if senderId.None? || message.None? {
      return ServerError, None, 0;
    }
    var nid := db.nextNotificationId;
    db.notifications := db.notifications[nid :=
      Notification(senderId.value, db.targetTypes[targetType], target, message.value, now)];
    db.nextNotificationId := nid + 1;
    notificationId := Some(nid);

    if targetType == "USER" && target.None? {
      // the VALUES list reads `(nid, undefined, ...)` and the insert fails
      return ServerError, notificationId, 0;
    }
    var audience := Resolve(db.Hierarchy(), targetType, target);
    if audience != {} {
      if "PENDING" !in db.deliveryStatuses {
        // pendingStatus[0] is undefined
        return ServerError, notificationId, 0;
      }
      db.recipients := db.recipients + FanOut(nid, audience, db.deliveryStatuses["PENDING"]);
    }
    code, recipientsCount := Created, |audience|;
  }

  /*** Delivery tracking ***/

  /** The row moves to SENT, the attempt is stamped and counted. */
  function MarkSent(rows: map<(int, int), Recipient>, key: (int, int), sent: int, now: int): (r: map<(int, int), Recipient>)
    requires key in rows
    // no row is added and no other row changes
    ensures r.Keys == rows.Keys
    ensures forall k :: k in rows && k != key ==> r[k] == rows[k]
    ensures r[key].statusId == sent && r[key].lastAttemptAt == Some(now)
    ensures r[key].attemptCount == rows[key].attemptCount + 1
  {
    rows[key := Recipient(sent, rows[key].attemptCount + 1, Some(now))]
  }

  /** Status is idempotent, the counter is not: two calls count two attempts. */
  lemma MarkSentTwice(rows: map<(int, int), Recipient>, key: (int, int), sent: int, t1: int, t2: int)
    requires key in rows
    ensures key in MarkSent(rows, key, sent, t1)
    ensures MarkSent(MarkSent(rows, key, sent, t1), key, sent, t2)[key] ==
      Recipient(sent, rows[key].attemptCount + 2, Some(t2))
  {
  }

  /** A freshly fanned-out row delivered twice has attempt_count 2. */
  lemma FreshRowDeliveredTwice(nid: int, audience: set<int>, pending: int, u: int, sent: int, t1: int, t2: int)
    requires u in audience
    ensures (nid, u) in FanOut(nid, audience, pending)
    ensures MarkSent(MarkSent(FanOut(nid, audience, pending), (nid, u), sent, t1), (nid, u), sent, t2)[(nid, u)].attemptCount == 2
  {
  }

  /** PATCH /notifications/delivered. */
  method MarkAsDelivered(db: Db, notificationId: int, userId: int, now: int) returns (code: int)
    requires db.Valid()
    modifies db`recipients
    ensures db.Valid()
    ensures "SENT" !in db.deliveryStatuses ==> code == ServerError && db.recipients == old(db.recipients)
    ensures "SENT" in db.deliveryStatuses && (notificationId, userId) !in old(db.recipients) ==>
      code == NotFound && db.recipients == old(db.recipients)
    ensures "SENT" in db.deliveryStatuses && (notificationId, userId) in old(db.recipients) ==>
      code == Ok && db.recipients == MarkSent(old(db.recipients), (notificationId, userId), db.deliveryStatuses["SENT"], now)
  {
    if "SENT" !in db.deliveryStatuses {
      // sentStatus[0] is undefined
      return ServerError;
    }
    var key := (notificationId, userId);
    if key !in db.recipients {
      return NotFound;
    }
    db.recipients := MarkSent(db.recipients, key, db.deliveryStatuses["SENT"], now);
    code := Ok;
  }

  /*** Listings ***/

  /** GET /notifications/user/:userId: the user's recipient rows, newest
      notification first. */
  method GetUserNotifications(db: Db, userId: int) returns (code: int, rows: seq<(int, int)>)
    ensures code == Ok
    ensures forall i :: 0 <= i < |rows| ==>
      rows[i] in db.recipients && rows[i].1 == userId && rows[i].0 in db.notifications
    ensures forall k :: k in db.recipients && k.1 == userId && k.0 in db.notifications ==> k in rows
    ensures Distinct(rows)
    ensures forall i, j :: 0 <= i < j < |rows| ==>
      db.notifications[rows[i].0].createdAt >= db.notifications[rows[j].0].createdAt
  {
    var notifications := db.notifications;
    rows := SelectOrdered(db.recipients,
      (k: (int, int), r: Recipient) => k.1 == userId && k.0 in notifications,
      (k: (int, int)) => if k.0 in notifications then notifications[k.0].createdAt else 0,
      Desc);
    code := Ok;
  }

  /** The rows of `notifications LEFT JOIN notification_recipients`: one per
      recipient row, or one with no recipient for a notification that has none. */
  function Joined(notifications: map<int, Notification>, recipients: map<(int, int), Recipient>): set<(int, Option<int>)>
  {
    (set k | k in recipients.Keys && k.0 in notifications :: (k.0, Some(k.1)))
    + (set n | n in notifications.Keys && !(exists k | k in recipients.Keys :: k.0 == n) :: (n, None))
  }

  /** GET /notifications[?user_id=]: the joined rows, restricted to one
      recipient when user_id is given, newest notification first. */
  method GetAllNotifications(db: Db, userId: Option<int>) returns (code: int, rows: seq<(int, Option<int>)>)
    ensures code == Ok
    ensures forall i :: 0 <= i < |rows| ==> rows[i].0 in db.notifications
    ensures forall i :: 0 <= i < |rows| && rows[i].1.Some? ==> (rows[i].0, rows[i].1.value) in db.recipients
    ensures forall i :: 0 <= i < |rows| && rows[i].1.None? ==>
      userId.None? && forall k :: k in db.recipients ==> k.0 != rows[i].0
    ensures userId.Some? ==> forall i :: 0 <= i < |rows| ==> rows[i].1 == userId
    ensures forall k :: k in db.recipients && k.0 in db.notifications && (userId.None? || userId == Some(k.1)) ==>
      (k.0, Some(k.1)) in rows
    ensures userId.None? ==> forall n :: n in db.notifications && (forall k :: k in db.recipients ==> k.0 != n) ==>
      (n, None) in rows
    ensures Distinct(rows)
    ensures forall i, j :: 0 <= i < j < |rows| ==>
      db.notifications[rows[i].0].createdAt >= db.notifications[rows[j].0].createdAt
  {
    var notifications := db.notifications;
    var joined := map row | row in Joined(notifications, db.recipients) :: notifications[row.0];
    rows := SelectOrdered(joined,
      (row: (int, Option<int>), n: Notification) => userId.None? || row.1 == userId,
      (row: (int, Option<int>)) => if row.0 in notifications then notifications[row.0].createdAt else 0,
      Desc);
    code := Ok;
    forall k | k in db.recipients && k.0 in db.notifications && (userId.None? || userId == Some(k.1))
      ensures (k.0, Some(k.1)) in rows
    {
      assert (k.0, Some(k.1)) in joined;
    }
    forall n | userId.None? && n in db.notifications && (forall k :: k in db.recipients ==> k.0 != n)
      ensures (n, None) in rows
    {
      assert (n, None) in joined;
    }
  }
}
