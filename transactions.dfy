/** Payment transactions (church-management-backend/controllers/transactionController.js):
    the filtered listing, lookup by id, recording, status change by name,
    per-church listing and the queue of transactions awaiting review. */
module Transactions {
  import opened Common
  import opened Schema
  import opened Query

  /** `amount_paise / 100`: MySQL divides exactly into a DECIMAL. */
  function Rupees(paise: int): (r: real)
    ensures r * 100.0 == paise as real
  {
    paise as real / 100.0
  }

  /*** The filter of GET /transactions ***/

  /** The query-string filters; a filter is present when it is given and not empty. */
  datatype TxFilter = TxFilter(
    churchId: Option<int>,
    methodId: Option<int>,
    statusId: Option<int>,
    startDate: Option<int>,
    endDate: Option<int>)

  /** One `AND ...` clause; each is paired with one `?` parameter. */
  datatype Condition = ChurchIs | MethodIs | StatusIs | CreatedFrom | CreatedUntil

  /** The position of a clause in the order the handler appends them. */
  function Position(c: Condition): nat
  {
    match c
    case ChurchIs => 0
    case MethodIs => 1
    case StatusIs => 2
    case CreatedFrom => 3
    case CreatedUntil => 4
  }

  function FilterValue(f: TxFilter, c: Condition): Option<int>
  {
    match c
    case ChurchIs => f.churchId
    case MethodIs => f.methodId
    case StatusIs => f.statusId
    case CreatedFrom => f.startDate
    case CreatedUntil => f.endDate
  }

  predicate Holds(c: Condition, p: int, t: Transaction)
  {
    match c
    case ChurchIs => t.churchId == p
    case MethodIs => t.methodId == p
    case StatusIs => t.statusId == p
    case CreatedFrom => t.createdAt >= p
    case CreatedUntil => t.createdAt <= p
  }

  /** `WHERE 1=1 AND c1 AND c2 ...` with the parameters bound in order. */
  predicate HoldsAll(conds: seq<Condition>, params: seq<int>, t: Transaction)
    requires |conds| == |params|
  {
    forall i :: 0 <= i < |conds| ==> Holds(conds[i], params[i], t)
  }

  /** What the filter means, independently of how the query is built: every
      given filter restricts its column, the dates as inclusive bounds. */
  predicate Matches(f: TxFilter, t: Transaction)
  {
    && (f.churchId.Some? ==> t.churchId == f.churchId.value)
    && (f.methodId.Some? ==> t.methodId == f.methodId.value)
    && (f.statusId.Some? ==> t.statusId == f.statusId.value)
    && (f.startDate.Some? ==> t.createdAt >= f.startDate.value)
    && (f.endDate.Some? ==> t.createdAt <= f.endDate.value)
  }

  /** The clauses for the filters before position n have been appended, in order. */
  ghost predicate BuiltUpTo(f: TxFilter, conds: seq<Condition>, params: seq<int>, n: nat)
  {
    && |conds| == |params|
    && (forall c :: c in conds <==> Position(c) < n && FilterValue(f, c).Some?)
    && (forall i, j :: 0 <= i < j < |conds| ==> Position(conds[i]) < Position(conds[j]))
    && (forall i :: 0 <= i < |conds| ==> Position(conds[i]) < n && FilterValue(f, conds[i]) == Some(params[i]))
  }

  /** One step of the builder: appends the clause at the next position
      exactly when its filter is present. */
  method Push(f: TxFilter, conds: seq<Condition>, params: seq<int>, c: Condition)
    returns (conds': seq<Condition>, params': seq<int>)
    requires BuiltUpTo(f, conds, params, Position(c))
    ensures BuiltUpTo(f, conds', params', Position(c) + 1)
    ensures FilterValue(f, c).Some? ==> conds' == conds + [c] && params' == params + [FilterValue(f, c).value]
    ensures FilterValue(f, c).None? ==> conds' == conds && params' == params
  {
    if FilterValue(f, c).Some? {
      conds', params' := conds + [c], params + [FilterValue(f, c).value];
    } else {
      conds', params' := conds, params;
      forall c' | Position(c') == Position(c)
        ensures c' == c
      {
      }
    }
  }

  /** Builds the clauses and parameters of GET /transactions: one clause and
      one parameter per present filter, in the handler's order. */
  method BuildFilter(f: TxFilter) returns (conds: seq<Condition>, params: seq<int>)
    ensures |conds| == |params|
    ensures forall c :: c in conds <==> FilterValue(f, c).Some?
    ensures forall i, j :: 0 <= i < j < |conds| ==> Position(conds[i]) < Position(conds[j])
    ensures forall i :: 0 <= i < |conds| ==> FilterValue(f, conds[i]) == Some(params[i])
    ensures forall t :: HoldsAll(conds, params, t) <==> Matches(f, t)
  {
    conds, params := Push(f, [], [], ChurchIs);
    conds, params := Push(f, conds, params, MethodIs);
    conds, params := Push(f, conds, params, StatusIs);
    conds, params := Push(f, conds, params, CreatedFrom);
    conds, params := Push(f, conds, params, CreatedUntil);
    forall c
      ensures c in conds <==> FilterValue(f, c).Some?
    {
      assert Position(c) < 5;
    }
    forall t
      ensures HoldsAll(conds, params, t) <==> Matches(f, t)
    {
      FilterMeaning(f, conds, params, t);
    }
  }

  /** Any clause list with one clause per present filter, each bound to that
      filter's value, selects exactly what the filter means. */
  lemma FilterMeaning(f: TxFilter, conds: seq<Condition>, params: seq<int>, t: Transaction)
    requires |conds| == |params|
    requires forall c :: c in conds <==> FilterValue(f, c).Some?
    requires forall i :: 0 <= i < |conds| ==> FilterValue(f, conds[i]) == Some(params[i])
    ensures HoldsAll(conds, params, t) <==> Matches(f, t)
  {
    if HoldsAll(conds, params, t) {
      forall c | c in conds
        ensures Holds(c, FilterValue(f, c).value, t)
      {
        var i := IndexOf(conds, c);
        assert Holds(conds[i], params[i], t);
      }
      if f.churchId.Some? { assert ChurchIs in conds; }
      if f.methodId.Some? { assert MethodIs in conds; }
      if f.statusId.Some? { assert StatusIs in conds; }
      if f.startDate.Some? { assert CreatedFrom in conds; }
      if f.endDate.Some? { assert CreatedUntil in conds; }
    }
    if Matches(f, t) {
      forall i | 0 <= i < |conds|
        ensures Holds(conds[i], params[i], t)
      {
        assert FilterValue(f, conds[i]) == Some(params[i]);
      }
    }
  }

  function IndexOf(s: seq<Condition>, c: Condition): (i: nat)
    requires c in s
    ensures i < |s| && s[i] == c
  {
    if s[0] == c then 0 else 1 + IndexOf(s[1..], c)
  }

  /** GET /transactions: the matching transactions, newest first, with the
      amount in rupees and their count. */
  method GetAllTransactions(db: Db, f: TxFilter) returns (code: int, ids: seq<int>, rupees: seq<real>, count: nat)
    ensures code == Ok
    ensures forall i :: 0 <= i < |ids| ==> ids[i] in db.transactions && Matches(f, db.transactions[ids[i]])
    ensures forall k :: k in db.transactions && Matches(f, db.transactions[k]) ==> k in ids
    ensures Distinct(ids)
    ensures forall i, j :: 0 <= i < j < |ids| ==> db.transactions[ids[i]].createdAt >= db.transactions[ids[j]].createdAt
    ensures count == |ids| == |rupees|
    ensures forall i :: 0 <= i < |ids| ==> rupees[i] * 100.0 == db.transactions[ids[i]].amountPaise as real
  {
    var conds, params := BuildFilter(f);
    var table := db.transactions;
    ids := SelectOrdered(table,
      (k: int, t: Transaction) => HoldsAll(conds, params, t),
      (k: int) => if k in table then table[k].createdAt else 0,
      Desc);
    rupees := seq(|ids|, i requires 0 <= i < |ids| => Rupees(table[ids[i]].amountPaise));
    code, count := Ok, |ids|;
  }

  /** GET /transactions/:id: the transaction and the split rows of its
      booking's service. */
  method GetTransactionById(db: Db, id: int) returns (code: int, row: Option<Transaction>, splitIds: set<int>)
    ensures id !in db.transactions ==> code == NotFound && row == None && splitIds == {}
    ensures id in db.transactions ==> code == Ok && row == Some(db.transactions[id])
    ensures forall s :: s in splitIds <==>
      && id in db.transactions
      && s in db.splits
      && db.transactions[id].bookingId.Some?
      && db.transactions[id].bookingId.value in db.bookings
      && db.splits[s].serviceId == db.bookings[db.transactions[id].bookingId.value].serviceId
  {
    if id !in db.transactions {
      return NotFound, None, {};
    }
    var t := db.transactions[id];
    if t.bookingId.Some? && t.bookingId.value in db.bookings {
      var serviceId := db.bookings[t.bookingId.value].serviceId;
      splitIds := set s | s in db.splits && db.splits[s].serviceId == serviceId;
    } else {
      splitIds := {};
    }
    code, row := Ok, Some(t);
  }

  /** POST /transactions: recorded as given, stamped with the current time. */
  method CreateTransaction(db: Db, bookingId: Option<int>, churchId: Option<int>, amountPaise: Option<int>,
                           methodId: Option<int>, statusId: Option<int>, orderId: Option<string>,
                           paymentId: Option<string>, gatewayResponse: Option<string>, proofUrl: Option<string>,
                           recordedBy: Option<int>, now: int)
    returns (code: int, transactionId: Option<int>)
    requires db.Valid()
    modifies db`transactions, db`nextTransactionId
    ensures db.Valid()
    // an absent church, amount, method or status is bound as NULL and the INSERT is rejected
    ensures churchId.None? || amountPaise.None? || methodId.None? || statusId.None? ==>
      code == ServerError && transactionId == None && unchanged(db)
    ensures churchId.Some? && amountPaise.Some? && methodId.Some? && statusId.Some? ==>
      && code == Created && transactionId == Some(old(db.nextTransactionId))
      && old(db.nextTransactionId) !in old(db.transactions)
      && db.transactions == old(db.transactions)[old(db.nextTransactionId) := Transaction(bookingId, churchId.value,
           amountPaise.value, methodId.value, statusId.value, orderId, paymentId, gatewayResponse, proofUrl,
           recordedBy, now, now)]
  {
    if churchId.None? || amountPaise.None? || methodId.None? || statusId.None? {
      return ServerError, None;
    }
    var id := db.nextTransactionId;
    db.transactions := db.transactions[id := Transaction(bookingId, churchId.value, amountPaise.value,
      methodId.value, statusId.value, orderId, paymentId, gatewayResponse, proofUrl, recordedBy, now, now)];
    db.nextTransactionId := id + 1;
    code, transactionId := Created, Some(id);
  }

  /** PUT /transactions/:id/status. */
  method UpdateTransactionStatus(db: Db, id: int, status: string) returns (code: int)
    requires db.Valid()
    modifies db`transactions
    ensures db.Valid()
    ensures status !in db.transactionStatuses ==> code == BadRequest && db.transactions == old(db.transactions)
    ensures status in db.transactionStatuses && id !in old(db.transactions) ==>
      code == NotFound && db.transactions == old(db.transactions)
    ensures status in db.transactionStatuses && id in old(db.transactions) ==>
      && code == Ok
      && db.transactions == old(db.transactions)[id := old(db.transactions)[id].(statusId := db.transactionStatuses[status])]
  {
    if status !in db.transactionStatuses {
      return BadRequest;
    }
    if id !in db.transactions {
      return NotFound;
    }
    db.transactions := db.transactions[id := db.transactions[id].(statusId := db.transactionStatuses[status])];
    code := Ok;
  }

  /** GET /transactions/church/:churchId: that church's transactions, newest first. */
  method GetTransactionsByChurch(db: Db, churchId: int) returns (code: int, ids: seq<int>, rupees: seq<real>)
    ensures code == Ok
    ensures forall i :: 0 <= i < |ids| ==> ids[i] in db.transactions && db.transactions[ids[i]].churchId == churchId
    ensures forall k :: k in db.transactions && db.transactions[k].churchId == churchId ==> k in ids
    ensures Distinct(ids)
    ensures forall i, j :: 0 <= i < j < |ids| ==> db.transactions[ids[i]].createdAt >= db.transactions[ids[j]].createdAt
    ensures |rupees| == |ids|
    ensures forall i :: 0 <= i < |ids| ==> rupees[i] * 100.0 == db.transactions[ids[i]].amountPaise as real
  {
    var table := db.transactions;
    ids := SelectOrdered(table,
      (k: int, t: Transaction) => t.churchId == churchId,
      (k: int) => if k in table then table[k].createdAt else 0,
      Desc);
    rupees := seq(|ids|, i requires 0 <= i < |ids| => Rupees(table[ids[i]].amountPaise));
    code := Ok;
  }

  /** The status named PENDING_REVIEW (`WHERE ts.name = 'PENDING_REVIEW'`). */
  predicate AwaitsReview(statuses: map<string, int>, t: Transaction)
  {
    "PENDING_REVIEW" in statuses && t.statusId == statuses["PENDING_REVIEW"]
  }

  /** GET /transactions/pending-reviews[?church_id=]: transactions awaiting
      review, optionally of one church, most recently recorded first. */
  method GetPendingReviews(db: Db, churchId: Option<int>) returns (code: int, ids: seq<int>, rupees: seq<real>)
    ensures code == Ok
    ensures forall i :: 0 <= i < |ids| ==>
      && ids[i] in db.transactions
      && AwaitsReview(db.transactionStatuses, db.transactions[ids[i]])
      && (churchId.Some? ==> db.transactions[ids[i]].churchId == churchId.value)
    ensures forall k ::
      (k in db.transactions && AwaitsReview(db.transactionStatuses, db.transactions[k]) &&
       (churchId.Some? ==> db.transactions[k].churchId == churchId.value)) ==> k in ids
    ensures Distinct(ids)
    ensures forall i, j :: 0 <= i < j < |ids| ==> db.transactions[ids[i]].recordedAt >= db.transactions[ids[j]].recordedAt
    ensures |rupees| == |ids|
    ensures forall i :: 0 <= i < |ids| ==> rupees[i] * 100.0 == db.transactions[ids[i]].amountPaise as real
  {
    var conds: seq<Condition>, params: seq<int> := [], [];
    if churchId.Some? {
      conds, params := conds + [ChurchIs], params + [churchId.value];
    }
    forall t
      ensures HoldsAll(conds, params, t) <==> (churchId.Some? ==> t.churchId == churchId.value)
    {
      if churchId.Some? {
        assert conds[0] == ChurchIs && params[0] == churchId.value;
      }
    }
    var table := db.transactions;
    var statuses := db.transactionStatuses;
    ids := SelectOrdered(table,
      (k: int, t: Transaction) => AwaitsReview(statuses, t) && HoldsAll(conds, params, t),
      (k: int) => if k in table then table[k].recordedAt else 0,
      Desc);
    rupees := seq(|ids|, i requires 0 <= i < |ids| => Rupees(table[ids[i]].amountPaise));
    code := Ok;
  }
}
