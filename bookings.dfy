/** Service bookings (church-management-backend/controllers/bookingcontroller.js):
    listing, lookup by id, creation with the PENDING status, and status change
    by name. */
module Bookings {
  import opened Common
  import opened Schema
  import opened Query

  /** The guard of POST /bookings: `!service_id || !parishioner_id ||
      !church_id || !amount_paise`. */
  predicate MissingRequired(serviceId: Option<int>, parishionerId: Option<int>, churchId: Option<int>,
                            amountPaise: Option<int>)
  {
    !TruthyId(serviceId) || !TruthyId(parishionerId) || !TruthyId(churchId) || !TruthyId(amountPaise)
  }

  /** A request passes the guard exactly when the four fields are given and
      none of them is 0: a free booking (amount 0) is refused like a missing one. */
  lemma ZeroIsMissing(serviceId: Option<int>, parishionerId: Option<int>, churchId: Option<int>,
                      amountPaise: Option<int>)
    ensures !MissingRequired(serviceId, parishionerId, churchId, amountPaise) <==>
      && serviceId.Some? && parishionerId.Some? && churchId.Some? && amountPaise.Some?
      && serviceId.value != 0 && parishionerId.value != 0 && churchId.value != 0 && amountPaise.value != 0
    ensures MissingRequired(serviceId, parishionerId, churchId, Some(0))
  {
  }

  /** GET /bookings: every booking, newest first, with the number returned. */
  method GetAllBookings(db: Db) returns (code: int, ids: seq<int>, rupees: seq<real>, count: nat)
    ensures code == Ok
    ensures forall i :: 0 <= i < |ids| ==> ids[i] in db.bookings
    ensures forall k :: k in db.bookings ==> k in ids
    ensures Distinct(ids)
    ensures forall i, j :: 0 <= i < j < |ids| ==> db.bookings[ids[i]].createdAt >= db.bookings[ids[j]].createdAt
    ensures count == |ids| == |rupees| == |db.bookings|
    ensures forall i :: 0 <= i < |ids| ==> rupees[i] * 100.0 == db.bookings[ids[i]].amountPaise as real
  {
    var table := db.bookings;
    ids := SelectOrdered(table,
      (k: int, b: Booking) => true,
      (k: int) => if k in table then table[k].createdAt else 0,
      Desc);
    DistinctKeysCard(ids, table);
    rupees := seq(|ids|, i requires 0 <= i < |ids| => table[ids[i]].amountPaise as real / 100.0);
    code, count := Ok, |ids|;
  }

  /** GET /bookings/:id. */
  method GetBookingById(db: Db, id: int) returns (code: int, row: Option<Booking>)
    ensures id !in db.bookings <==> code == NotFound
    ensures id !in db.bookings ==> row == None
    ensures id in db.bookings ==> code == Ok && row == Some(db.bookings[id])
  {
    if id !in db.bookings {
      return NotFound, None;
    }
    code, row := Ok, Some(db.bookings[id]);
  }

  /** POST /bookings: a PENDING booking created by the parishioner; the
      priest may be left unassigned. The PENDING status is looked up by name
      and read as `statusRows[0]`, which throws (500) when it is missing. */
  method CreateBooking(db: Db, serviceId: Option<int>, parishionerId: Option<int>, churchId: Option<int>,
                       priestId: Option<int>, amountPaise: Option<int>, now: int)
    returns (code: int, bookingId: Option<int>)
    requires db.Valid()
    modifies db`bookings, db`nextBookingId
    ensures db.Valid()
    ensures MissingRequired(serviceId, parishionerId, churchId, amountPaise) ==>
      code == BadRequest && bookingId == None && unchanged(db)
    ensures !MissingRequired(serviceId, parishionerId, churchId, amountPaise) && "PENDING" !in db.bookingStatuses ==>
      code == ServerError && bookingId == None && unchanged(db)
    ensures !MissingRequired(serviceId, parishionerId, churchId, amountPaise) && "PENDING" in db.bookingStatuses ==>
      && code == Created
      && bookingId == Some(old(db.nextBookingId))
      && bookingId.value !in old(db.bookings)
      && db.bookings == old(db.bookings)[bookingId.value := Booking(serviceId.value, parishionerId.value,
           churchId.value, priestId, amountPaise.value, db.bookingStatuses["PENDING"], parishionerId.value, now)]
  {
    if MissingRequired(serviceId, parishionerId, churchId, amountPaise) {
      return BadRequest, None;
    }
    if "PENDING" !in db.bookingStatuses {
      return ServerError, None;
    }
    var pending := db.bookingStatuses["PENDING"];
    var id := db.nextBookingId;
    db.bookings := db.bookings[id := Booking(serviceId.value, parishionerId.value, churchId.value, priestId,
      amountPaise.value, pending, parishionerId.value, now)];
    db.nextBookingId := id + 1;
    code, bookingId := Created, Some(id);
  }

  /** PUT /bookings/:id/status. */
  method UpdateBookingStatus(db: Db, id: int, status: string) returns (code: int)
    requires db.Valid()
    modifies db`bookings
    ensures db.Valid()
    ensures status !in db.bookingStatuses ==> code == BadRequest && db.bookings == old(db.bookings)
    ensures status in db.bookingStatuses && id !in old(db.bookings) ==>
      code == NotFound && db.bookings == old(db.bookings)
    ensures status in db.bookingStatuses && id in old(db.bookings) ==>
      && code == Ok
      && db.bookings == old(db.bookings)[id := old(db.bookings)[id].(statusId := db.bookingStatuses[status])]
  {
    if status !in db.bookingStatuses {
      return BadRequest;
    }
    if id !in db.bookings {
      return NotFound;
    }
    db.bookings := db.bookings[id := db.bookings[id].(statusId := db.bookingStatuses[status])];
    code := Ok;
  }
}
