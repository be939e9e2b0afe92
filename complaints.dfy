/** Parishioner complaints (routes/complaints.js): listing, lookup by id,
    creation with the OPEN status, status change by name, per-user listing. */
module Complaints {
  import opened Common
  import opened Schema
  import opened Query

  /** GET /complaints: every complaint, newest first. */
  method GetAllComplaints(db: Db) returns (code: int, ids: seq<int>)
    ensures code == Ok
    ensures forall i :: 0 <= i < |ids| ==> ids[i] in db.complaints
    ensures forall k :: k in db.complaints ==> k in ids
    ensures Distinct(ids) && |ids| == |db.complaints|
    ensures forall i, j :: 0 <= i < j < |ids| ==> db.complaints[ids[i]].createdAt >= db.complaints[ids[j]].createdAt
  {
    var table := db.complaints;
    ids := SelectOrdered(table,
      (k: int, c: Complaint) => true,
      (k: int) => if k in table then table[k].createdAt else 0,
      Desc);
    DistinctKeysCard(ids, table);
    code := Ok;
  }

  /** GET /complaints/:id. */
  method GetComplaintById(db: Db, id: int) returns (code: int, row: Option<Complaint>)
    ensures id !in db.complaints <==> code == NotFound
    ensures id !in db.complaints ==> row == None
    ensures id in db.complaints ==> code == Ok && row == Some(db.complaints[id])
  {
    if id !in db.complaints {
      return NotFound, None;
    }
    code, row := Ok, Some(db.complaints[id]);
  }

  /** POST /complaints: always filed as OPEN. The OPEN status is read as
      `status[0]`, which throws (500) before the insert when it is missing. */
  method CreateComplaint(db: Db, userId: Option<int>, bookingId: Option<int>, title: Option<string>,
                         body: Option<string>, now: int)
    returns (code: int, complaintId: Option<int>)
    requires db.Valid()
    modifies db`complaints, db`nextComplaintId
    ensures db.Valid()
    ensures "OPEN" !in db.complaintStatuses ==> code == ServerError && complaintId == None && unchanged(db)
    // an absent user, title or body is bound as NULL and the INSERT is rejected
    ensures userId.None? || title.None? || body.None? ==> code == ServerError && complaintId == None && unchanged(db)
    ensures "OPEN" in db.complaintStatuses && userId.Some? && title.Some? && body.Some? ==>
      && code == Created
      && complaintId == Some(old(db.nextComplaintId))
      && complaintId.value !in old(db.complaints)
      && db.complaints == old(db.complaints)[complaintId.value :=
           Complaint(userId.value, bookingId, title.value, body.value, db.complaintStatuses["OPEN"], now)]
  {
    if "OPEN" !in db.complaintStatuses {
      return ServerError, None;
    }
    if userId.None? || title.None? || body.None? {
      return ServerError, None;
    }
    var id := db.nextComplaintId;
    db.complaints := db.complaints[id :=
      Complaint(userId.value, bookingId, title.value, body.value, db.complaintStatuses["OPEN"], now)];
    db.nextComplaintId := id + 1;
    code, complaintId := Created, Some(id);
  }

  /** PUT /complaints/:id/status. */
  method UpdateComplaintStatus(db: Db, id: int, status: string) returns (code: int)
    requires db.Valid()
    modifies db`complaints
    ensures db.Valid()
    ensures status !in db.complaintStatuses ==> code == BadRequest && db.complaints == old(db.complaints)
    ensures status in db.complaintStatuses && id !in old(db.complaints) ==>
      code == NotFound && db.complaints == old(db.complaints)
    ensures status in db.complaintStatuses && id in old(db.complaints) ==>
      && code == Ok
      && db.complaints == old(db.complaints)[id := old(db.complaints)[id].(statusId := db.complaintStatuses[status])]
  {
    if status !in db.complaintStatuses {
      return BadRequest;
    }
    if id !in db.complaints {
      return NotFound;
    }
    db.complaints := db.complaints[id := db.complaints[id].(statusId := db.complaintStatuses[status])];
    code := Ok;
  }

  /** GET /complaints/user/:userId: that user's complaints, newest first. */
  method GetUserComplaints(db: Db, userId: int) returns (code: int, ids: seq<int>)
    ensures code == Ok
    ensures forall i :: 0 <= i < |ids| ==> ids[i] in db.complaints && db.complaints[ids[i]].userId == userId
    ensures forall k :: k in db.complaints && db.complaints[k].userId == userId ==> k in ids
    ensures Distinct(ids)
    ensures forall i, j :: 0 <= i < j < |ids| ==> db.complaints[ids[i]].createdAt >= db.complaints[ids[j]].createdAt
  {
    var table := db.complaints;
    ids := SelectOrdered(table,
      (k: int, c: Complaint) => c.userId == userId,
      (k: int) => if k in table then table[k].createdAt else 0,
      Desc);
    code := Ok;
  }
}
