/** Services and their revenue splits
    (church-management-backend/controllers/servicecontroller.js): listing,
    creation with the split rows, overwrite, and delete with its cascade. */
module Services {
  import opened Common
  import opened Schema
  import opened Query

  /** One entry of the request's `splits` array. */
  datatype SplitRequest = SplitRequest(beneficiaryType: Option<string>, percentage: int)

  /** Whether the beneficiary-type lookup of one split finds a row. */
  predicate Known(types: map<string, int>, r: SplitRequest)
  {
    r.beneficiaryType.Some? && r.beneficiaryType.value in types
  }

  /** The (beneficiary type id, percentage) pairs the split loop inserts, in
      request order: the entries whose type name is known. */
  function Kept(types: map<string, int>, requests: seq<SplitRequest>): (kept: seq<(int, int)>)
    ensures |kept| <= |requests|
    ensures forall j :: 0 <= j < |kept| ==> kept[j].0 in types.Values
  {
    if requests == [] then []
    else
      var last := requests[|requests| - 1];
      Kept(types, requests[..|requests| - 1])
        + (if Known(types, last) then [(types[last.beneficiaryType.value], last.percentage)] else [])
  }

  /** The split table after inserting the kept pairs for service sid, the
      first one under key first and the rest under the following keys. */
  function AddSplits(table: map<int, Split>, sid: int, kept: seq<(int, int)>, first: int): map<int, Split>
  {
    if kept == [] then table
    else
      var k := |kept| - 1;
      AddSplits(table, sid, kept[..k], first)[first + k := Split(sid, kept[k].0, kept[k].1)]
  }

  /** The inserted rows are exactly the keys first .. first+|kept|-1, each tied
      to the service and carrying its pair; every older row is untouched. */
  lemma {:induction false} AddSplitsRows(table: map<int, Split>, sid: int, kept: seq<(int, int)>, first: int)
    requires forall k :: k in table ==> k < first
    ensures forall k :: k in AddSplits(table, sid, kept, first) <==> k in table || first <= k < first + |kept|
    ensures forall k :: k in table ==> AddSplits(table, sid, kept, first)[k] == table[k]
    ensures forall j :: 0 <= j < |kept| ==>
      AddSplits(table, sid, kept, first)[first + j] == Split(sid, kept[j].0, kept[j].1)
    decreases |kept|
  {
    if kept != [] {
      var k := |kept| - 1;
      AddSplitsRows(table, sid, kept[..k], first);
    }
  }

  /** Every supplied split with a known type name is kept, in order. */
  lemma {:induction false} AllKnownKeptAll(types: map<string, int>, requests: seq<SplitRequest>)
    requires forall i :: 0 <= i < |requests| ==> Known(types, requests[i])
    ensures |Kept(types, requests)| == |requests|
    ensures forall i :: 0 <= i < |requests| ==>
      Known(types, requests[i]) &&
      Kept(types, requests)[i] == (types[requests[i].beneficiaryType.value], requests[i].percentage)
    decreases |requests|
  {
    if requests != [] {
      var init := requests[..|requests| - 1];
      AllKnownKeptAll(types, init);
    }
  }

  /** Splits whose type name is unknown are skipped without an error. */
  lemma {:induction false} UnknownSkipped(types: map<string, int>, requests: seq<SplitRequest>)
    requires forall i :: 0 <= i < |requests| ==> !Known(types, requests[i])
    ensures Kept(types, requests) == []
    decreases |requests|
  {
    if requests != [] {
      UnknownSkipped(types, requests[..|requests| - 1]);
    }
  }

  /** GET /services: every service, newest first, amounts in rupees. */
  method GetAllServices(db: Db) returns (code: int, ids: seq<int>, rupees: seq<real>)
    ensures code == Ok
    ensures forall i :: 0 <= i < |ids| ==> ids[i] in db.services
    ensures forall k :: k in db.services ==> k in ids
    ensures Distinct(ids)
    ensures forall i, j :: 0 <= i < j < |ids| ==> db.services[ids[i]].createdAt >= db.services[ids[j]].createdAt
    ensures |rupees| == |ids|
    ensures forall i :: 0 <= i < |ids| ==> rupees[i] * 100.0 == db.services[ids[i]].amountPaise as real
  {
    var table := db.services;
    ids := SelectOrdered(table,
      (k: int, s: Service) => true,
      (k: int) => if k in table then table[k].createdAt else 0,
      Desc);
    rupees := seq(|ids|, i requires 0 <= i < |ids| => table[ids[i]].amountPaise as real / 100.0);
    code := Ok;
  }

  /** The `for...of` loop of POST /services: looks each split's type up by
      name and inserts a row for the known ones. */
  method InsertSplits(db: Db, serviceId: int, requests: seq<SplitRequest>)
    requires forall k :: k in db.splits ==> k < db.nextSplitId
    modifies db`splits, db`nextSplitId
    ensures forall k :: k in db.splits ==> k < db.nextSplitId
    ensures db.splits == AddSplits(old(db.splits), serviceId, Kept(db.beneficiaryTypes, requests), old(db.nextSplitId))
    ensures db.nextSplitId == old(db.nextSplitId) + |Kept(db.beneficiaryTypes, requests)|
  {
    var first := db.nextSplitId;
    var i := 0;
    while i < |requests|
      invariant 0 <= i <= |requests|
      invariant db.splits == AddSplits(old(db.splits), serviceId, Kept(db.beneficiaryTypes, requests[..i]), first)
      invariant db.nextSplitId == first + |Kept(db.beneficiaryTypes, requests[..i])|
    {
      ghost var before := Kept(db.beneficiaryTypes, requests[..i]);
      assert requests[..i + 1][..i] == requests[..i];
      if Known(db.beneficiaryTypes, requests[i]) {
        var typeId := db.beneficiaryTypes[requests[i].beneficiaryType.value];
        assert Kept(db.beneficiaryTypes, requests[..i + 1]) == before + [(typeId, requests[i].percentage)];
        db.splits := db.splits[db.nextSplitId := Split(serviceId, typeId, requests[i].percentage)];
        db.nextSplitId := db.nextSplitId + 1;
      } else {
        assert Kept(db.beneficiaryTypes, requests[..i + 1]) == before;
      }
      i := i + 1;
    }
    assert requests[..i] == requests;
    AddSplitsRows(old(db.splits), serviceId, Kept(db.beneficiaryTypes, requests), first);
  }

  /** POST /services: the service row, then one split row per supplied split
      whose beneficiary type is known, one lookup and insert at a time. No
      split is written when `splits` is missing or empty. */
  method CreateService(db: Db, name: Option<string>, description: Option<string>, amountPaise: Option<int>,
                       churchId: Option<int>, splits: Option<seq<SplitRequest>>, now: int)
    returns (code: int, serviceId: Option<int>)
    requires db.Valid()
    modifies db`services, db`nextServiceId, db`splits, db`nextSplitId
    ensures db.Valid()
    // an absent name, amount or church is bound as NULL and the INSERT is rejected
    ensures name.None? || amountPaise.None? || churchId.None? ==>
      code == ServerError && serviceId == None && unchanged(db)
    ensures name.Some? && amountPaise.Some? && churchId.Some? ==>
      && code == Created && serviceId == Some(old(db.nextServiceId)) && old(db.nextServiceId) !in old(db.services)
      && db.services == old(db.services)[old(db.nextServiceId) :=
           Service(name.value, description, amountPaise.value, churchId.value, now)]
      && (splits.None? || splits.value == [] ==> db.splits == old(db.splits) && db.nextSplitId == old(db.nextSplitId))
      && (splits.Some? ==>
            && db.splits == AddSplits(old(db.splits), old(db.nextServiceId), Kept(db.beneficiaryTypes, splits.value),
                 old(db.nextSplitId))
            && db.nextSplitId == old(db.nextSplitId) + |Kept(db.beneficiaryTypes, splits.value)|)
  {
    if name.None? || amountPaise.None? || churchId.None? {
      return ServerError, None;
    }
    var sid := db.nextServiceId;
    db.services := db.services[sid := Service(name.value, description, amountPaise.value, churchId.value, now)];
    db.nextServiceId := sid + 1;
    if splits.Some? && |splits.value| > 0 {
      InsertSplits(db, sid, splits.value);
    } else if splits.Some? {
      assert splits.value == [];
    }
    code, serviceId := Created, Some(sid);
  }

  /** PUT /services/:id: overwrites the name, description and amount. */
  method UpdateService(db: Db, id: int, name: Option<string>, description: Option<string>, amountPaise: Option<int>)
    returns (code: int)
    requires db.Valid()
    modifies db`services
    ensures db.Valid()
    ensures id !in old(db.services) ==> code == NotFound && db.services == old(db.services)
    // a matched row cannot take NULL for its name or amount: the UPDATE is rejected
    ensures id in old(db.services) && (name.None? || amountPaise.None?) ==>
      code == ServerError && db.services == old(db.services)
    ensures id in old(db.services) && name.Some? && amountPaise.Some? ==>
      && code == Ok
      && db.services == old(db.services)[id := old(db.services)[id].(name := name.value, description := description,
           amountPaise := amountPaise.value)]
  {
    if id !in db.services {
      return NotFound;
    }
    if name.None? || amountPaise.None? {
      return ServerError;
    }
    db.services := db.services[id := db.services[id].(name := name.value, description := description,
      amountPaise := amountPaise.value)];
    code := Ok;
  }

  /** `DELETE FROM split_config WHERE service_id = ?`. */
  function WithoutSplitsOf(table: map<int, Split>, sid: int): (r: map<int, Split>)
    ensures forall k :: k in r <==> k in table && table[k].serviceId != sid
    ensures forall k :: k in r ==> r[k] == table[k]
  {
    map k | k in table && table[k].serviceId != sid :: table[k]
  }

  /** DELETE /services/:id: the service's splits are removed first, and stay
      removed even when there is no such service (404). */
  method DeleteService(db: Db, id: int) returns (code: int)
    requires db.Valid()
    modifies db`services, db`splits
    ensures db.Valid()
    ensures db.splits == WithoutSplitsOf(old(db.splits), id)
    ensures id !in old(db.services) ==> code == NotFound && db.services == old(db.services)
    ensures id in old(db.services) ==> code == Ok && db.services == old(db.services) - {id}
  {
    db.splits := WithoutSplitsOf(db.splits, id);
    if id !in db.services {
      return NotFound;
    }
    db.services := db.services - {id};
    code := Ok;
  }

  /** After the delete no split of the service remains, and deleting again
      changes nothing. */
  lemma CascadeLeavesNoSplits(table: map<int, Split>, sid: int)
    ensures forall k :: k in WithoutSplitsOf(table, sid) ==> WithoutSplitsOf(table, sid)[k].serviceId != sid
    ensures WithoutSplitsOf(WithoutSplitsOf(table, sid), sid) == WithoutSplitsOf(table, sid)
  {
  }
}
