/** Calendar events of priests and churches
    (church-management-backend/routes/events.js): the filtered listing, lookup
    by id, creation, the partial update, delete and the per-entity listings. */
module Events {
  import opened Common
  import opened Schema
  import opened Query

  /*** The filter of GET /events ***/

  /** `e.entity_type_id = (SELECT entity_type_id FROM entity_types WHERE name
      = kind) AND e.entity_id = id`. An unknown kind makes the subquery NULL,
      and the comparison then holds for no event. */
  predicate OwnedBy(types: map<string, int>, kind: string, id: int, e: Event)
  {
    kind in types && e.entityTypeId == types[kind] && e.entityId == id
  }

  /** One `AND ...` clause of the listing, naming the entity type it restricts
      to; its `?` parameter is the entity id. */
  datatype Owner = PriestOwner | ChurchOwner

  function KindName(o: Owner): string
  {
    match o
    case PriestOwner => "PRIEST"
    case ChurchOwner => "CHURCH"
  }

  predicate HoldsAll(types: map<string, int>, conds: seq<Owner>, params: seq<int>, e: Event)
    requires |conds| == |params|
  {
    forall i :: 0 <= i < |conds| ==> OwnedBy(types, KindName(conds[i]), params[i], e)
  }

  /** What the query string asks for: the events of the given priest and of
      the given church. */
  predicate Matches(types: map<string, int>, priestId: Option<int>, churchId: Option<int>, e: Event)
  {
    && (priestId.Some? ==> OwnedBy(types, "PRIEST", priestId.value, e))
    && (churchId.Some? ==> OwnedBy(types, "CHURCH", churchId.value, e))
  }

  /** Builds the clauses and parameters of GET /events: the PRIEST clause only
      when `priest_id` is given, then the CHURCH clause only when `church_id`
      is given. */
  method BuildEventFilter(types: map<string, int>, priestId: Option<int>, churchId: Option<int>)
    returns (conds: seq<Owner>, params: seq<int>)
    ensures |conds| == |params|
    ensures PriestOwner in conds <==> priestId.Some?
    ensures ChurchOwner in conds <==> churchId.Some?
    // each clause at most once, the priest's before the church's
    ensures forall i, j :: 0 <= i < j < |conds| ==> conds[i] == PriestOwner && conds[j] == ChurchOwner
    ensures forall i :: 0 <= i < |conds| && conds[i] == PriestOwner ==> params[i] == priestId.value
    ensures forall i :: 0 <= i < |conds| && conds[i] == ChurchOwner ==> params[i] == churchId.value
    ensures forall e :: HoldsAll(types, conds, params, e) <==> Matches(types, priestId, churchId, e)
  {
    conds, params := [], [];
    if priestId.Some? {
      conds, params := conds + [PriestOwner], params + [priestId.value];
    }
    if churchId.Some? {
      conds, params := conds + [ChurchOwner], params + [churchId.value];
    }
    forall e
      ensures HoldsAll(types, conds, params, e) <==> Matches(types, priestId, churchId, e)
    {
      if priestId.Some? && churchId.Some? {
        assert conds == [PriestOwner, ChurchOwner] && params == [priestId.value, churchId.value];
        assert HoldsAll(types, conds, params, e) <==>
          OwnedBy(types, "PRIEST", params[0], e) && OwnedBy(types, "CHURCH", params[1], e);
      } else if priestId.Some? {
        assert conds == [PriestOwner] && params == [priestId.value];
        assert HoldsAll(types, conds, params, e) <==> OwnedBy(types, "PRIEST", params[0], e);
      } else if churchId.Some? {
        assert conds == [ChurchOwner] && params == [churchId.value];
        assert HoldsAll(types, conds, params, e) <==> OwnedBy(types, "CHURCH", params[0], e);
      }
    }
  }

  /** Given both a priest and a church, the listing asks for an entity that is
      a priest and a church at once: when the two types differ, nothing
      matches. */
  lemma PriestAndChurchExclude(types: map<string, int>, p: int, c: int, e: Event)
    requires "PRIEST" in types && "CHURCH" in types && types["PRIEST"] != types["CHURCH"]
    ensures !Matches(types, Some(p), Some(c), e)
  {
  }

  /** Without a filter every event is listed. */
  lemma NoFilterKeepsAll(types: map<string, int>, e: Event)
    ensures Matches(types, None, None, e)
  {
  }

  /** GET /events[?priest_id=&church_id=]: the matching events by start time. */
  method GetEvents(db: Db, priestId: Option<int>, churchId: Option<int>) returns (code: int, ids: seq<int>)
    ensures code == Ok
    ensures forall i :: 0 <= i < |ids| ==>
      ids[i] in db.events && Matches(db.entityTypes, priestId, churchId, db.events[ids[i]])
    ensures forall k :: k in db.events && Matches(db.entityTypes, priestId, churchId, db.events[k]) ==> k in ids
    ensures Distinct(ids)
    ensures forall i, j :: 0 <= i < j < |ids| ==> db.events[ids[i]].startTime <= db.events[ids[j]].startTime
  {
    var types := db.entityTypes;
    var conds, params := BuildEventFilter(types, priestId, churchId);
    var table := db.events;
    ids := SelectOrdered(table,
      (k: int, e: Event) => HoldsAll(types, conds, params, e),
      (k: int) => if k in table then table[k].startTime else 0,
      Asc);
    code := Ok;
  }

  /** GET /events/:id. */
  method GetEventById(db: Db, id: int) returns (code: int, row: Option<Event>)
    ensures id !in db.events <==> code == NotFound
    ensures id !in db.events ==> row == None
    ensures id in db.events ==> code == Ok && row == Some(db.events[id])
  {
    if id !in db.events {
      return NotFound, None;
    }
    code, row := Ok, Some(db.events[id]);
  }

  /** The events of one priest or church, by start time. */
  method GetOwnedEvents(db: Db, owner: Owner, id: int) returns (code: int, ids: seq<int>)
    ensures code == Ok
    ensures forall i :: 0 <= i < |ids| ==> ids[i] in db.events && OwnedBy(db.entityTypes, KindName(owner), id, db.events[ids[i]])
    ensures forall k :: k in db.events && OwnedBy(db.entityTypes, KindName(owner), id, db.events[k]) ==> k in ids
    ensures Distinct(ids)
    ensures forall i, j :: 0 <= i < j < |ids| ==> db.events[ids[i]].startTime <= db.events[ids[j]].startTime
  {
    var types := db.entityTypes;
    var table := db.events;
    ids := SelectOrdered(table,
      (k: int, e: Event) => OwnedBy(types, KindName(owner), id, e),
      (k: int) => if k in table then table[k].startTime else 0,
      Asc);
    code := Ok;
  }

  /** GET /events/priest/:priestId. */
  method GetPriestEvents(db: Db, priestId: int) returns (code: int, ids: seq<int>)
    ensures code == Ok
    ensures forall i :: 0 <= i < |ids| ==> ids[i] in db.events && OwnedBy(db.entityTypes, "PRIEST", priestId, db.events[ids[i]])
    ensures forall k :: k in db.events && OwnedBy(db.entityTypes, "PRIEST", priestId, db.events[k]) ==> k in ids
    ensures Distinct(ids)
    ensures forall i, j :: 0 <= i < j < |ids| ==> db.events[ids[i]].startTime <= db.events[ids[j]].startTime
  {
    code, ids := GetOwnedEvents(db, PriestOwner, priestId);
  }

  /** GET /events/church/:churchId. */
  method GetChurchEvents(db: Db, churchId: int) returns (code: int, ids: seq<int>)
    ensures code == Ok
    ensures forall i :: 0 <= i < |ids| ==> ids[i] in db.events && OwnedBy(db.entityTypes, "CHURCH", churchId, db.events[ids[i]])
    ensures forall k :: k in db.events && OwnedBy(db.entityTypes, "CHURCH", churchId, db.events[k]) ==> k in ids
    ensures Distinct(ids)
    ensures forall i, j :: 0 <= i < j < |ids| ==> db.events[ids[i]].startTime <= db.events[ids[j]].startTime
  {
    code, ids := GetOwnedEvents(db, ChurchOwner, churchId);
  }

  /** The per-priest listing selects what the general listing selects when
      only `priest_id` is given, and likewise for churches. */
  lemma OwnedListingsAgreeWithFilter(types: map<string, int>, id: int, e: Event)
    ensures Matches(types, Some(id), None, e) <==> OwnedBy(types, "PRIEST", id, e)
    ensures Matches(types, None, Some(id), e) <==> OwnedBy(types, "CHURCH", id, e)
  {
  }

  /*** Creation and deletion ***/

  /** POST /events: the entity type and the visibility are looked up by name
      and read as `[0]`, so an unknown (or missing) name throws (500) before
      the insert. */
  method CreateEvent(db: Db, entityType: Option<string>, entityId: Option<int>, title: Option<string>,
                     description: Option<string>, startTime: Option<int>, endTime: Option<int>,
                     visibility: Option<string>, createdBy: Option<int>)
    returns (code: int, eventId: Option<int>)
    requires db.Valid()
    modifies db`events, db`nextEventId
    ensures db.Valid()
    ensures !(entityType.Some? && entityType.value in db.entityTypes) ==>
      code == ServerError && eventId == None && unchanged(db)
    ensures !(visibility.Some? && visibility.value in db.eventVisibility) ==>
      code == ServerError && eventId == None && unchanged(db)
    // an absent owner, title, time or creator is bound as NULL and the INSERT is rejected
    ensures entityId.None? || title.None? || startTime.None? || endTime.None? || createdBy.None? ==>
      code == ServerError && eventId == None && unchanged(db)
    ensures entityType.Some? && entityType.value in db.entityTypes &&
            visibility.Some? && visibility.value in db.eventVisibility &&
            entityId.Some? && title.Some? && startTime.Some? && endTime.Some? && createdBy.Some? ==>
      && code == Created
      && eventId == Some(old(db.nextEventId))
      && eventId.value !in old(db.events)
      && db.events == old(db.events)[eventId.value := Event(db.entityTypes[entityType.value], entityId.value,
           title.value, description, startTime.value, endTime.value, db.eventVisibility[visibility.value],
           createdBy.value)]
  {
    if entityType.None? || entityType.value !in db.entityTypes {
      return ServerError, None;
    }
    if visibility.None? || visibility.value !in db.eventVisibility {
      return ServerError, None;
    }
    if entityId.None? || title.None? || startTime.None? || endTime.None? || createdBy.None? {
      return ServerError, None;
    }
    var id := db.nextEventId;
    db.events := db.events[id := Event(db.entityTypes[entityType.value], entityId.value, title.value, description,
      startTime.value, endTime.value, db.eventVisibility[visibility.value], createdBy.value)];
    db.nextEventId := id + 1;
    code, eventId := Created, Some(id);
  }

  /** DELETE /events/:id: removes that event only. */
  method DeleteEvent(db: Db, id: int) returns (code: int)
    requires db.Valid()
    modifies db`events
    ensures db.Valid()
    ensures id !in old(db.events) ==> code == NotFound && db.events == old(db.events)
    ensures id in old(db.events) ==> code == Ok && db.events == old(db.events) - {id}
  {
    if id !in db.events {
      return NotFound;
    }
    db.events := db.events - {id};
    code := Ok;
  }

  /*** The partial update of PUT /events/:id ***/

  /** The body of the request: a field is present when it is not `undefined`;
      a present description may be null. */
  datatype EventPatch = EventPatch(
    title: Option<string>,
    description: Option<Option<string>>,
    startTime: Option<int>,
    endTime: Option<int>,
    visibility: Option<string>)

  /** One `column = ?` of the SET list. */
  datatype Column = TitleCol | DescriptionCol | StartCol | EndCol | VisibilityCol

  /** A bound parameter. */
  datatype Value = Text(s: Option<string>) | Number(n: int)

  /** The position of a column in the order the handler pushes them. */
  function Rank(c: Column): nat
  {
    match c
    case TitleCol => 0
    case DescriptionCol => 1
    case StartCol => 2
    case EndCol => 3
    case VisibilityCol => 4
  }

  predicate Present(p: EventPatch, c: Column)
  {
    match c
    case TitleCol => p.title.Some?
    case DescriptionCol => p.description.Some?
    case StartCol => p.startTime.Some?
    case EndCol => p.endTime.Some?
    case VisibilityCol => p.visibility.Some?
  }

  /** The parameter the handler pushes for a present column; visId is the
      looked-up id of the visibility name. */
  function ValueOf(p: EventPatch, visId: int, c: Column): Value
    requires Present(p, c)
  {
    match c
    case TitleCol => Text(Some(p.title.value))
    case DescriptionCol => Text(p.description.value)
    case StartCol => Number(p.startTime.value)
    case EndCol => Number(p.endTime.value)
    case VisibilityCol => Number(visId)
  }

  /** What one `column = ?` does to the row. */
  function Assign(e: Event, c: Column, v: Value): Event
  {
    match (c, v)
    case (TitleCol, Text(s)) => if s.Some? then e.(title := s.value) else e
    case (DescriptionCol, Text(s)) => e.(description := s)
    case (StartCol, Number(n)) => e.(startTime := n)
    case (EndCol, Number(n)) => e.(endTime := n)
    case (VisibilityCol, Number(n)) => e.(visibilityId := n)
    case _ => e
  }

  /** `UPDATE events SET c1 = ?, c2 = ?, ...` applied to one row, left to right. */
  function Apply(e: Event, cols: seq<Column>, vals: seq<Value>): Event
    requires |cols| == |vals|
  {
    if cols == [] then e
    else
      var k := |cols| - 1;
      Assign(Apply(e, cols[..k], vals[..k]), cols[k], vals[k])
  }

  /** The reference meaning of the patch, restricted to the columns before
      position n: each present field replaces its column, the others are kept. */
  function PatchUpTo(e: Event, p: EventPatch, visId: int, n: nat): Event
  {
    e.(title := if n > 0 && p.title.Some? then p.title.value else e.title,
       description := if n > 1 && p.description.Some? then p.description.value else e.description,
       startTime := if n > 2 && p.startTime.Some? then p.startTime.value else e.startTime,
       endTime := if n > 3 && p.endTime.Some? then p.endTime.value else e.endTime,
       visibilityId := if n > 4 && p.visibility.Some? then visId else e.visibilityId)
  }

  /** The patch as a whole: exactly the provided fields change. */
  function Patched(e: Event, p: EventPatch, visId: int): (r: Event)
    ensures r.entityTypeId == e.entityTypeId && r.entityId == e.entityId && r.createdBy == e.createdBy
    ensures r.title == (if p.title.Some? then p.title.value else e.title)
    ensures r.description == (if p.description.Some? then p.description.value else e.description)
    ensures r.startTime == (if p.startTime.Some? then p.startTime.value else e.startTime)
    ensures r.endTime == (if p.endTime.Some? then p.endTime.value else e.endTime)
    ensures r.visibilityId == (if p.visibility.Some? then visId else e.visibilityId)
  {
    PatchUpTo(e, p, visId, 5)
  }

  predicate NoFields(p: EventPatch)
  {
    p.title.None? && p.description.None? && p.startTime.None? && p.endTime.None? && p.visibility.None?
  }

  /** The SET list for the columns before position n has been built, with its
      parameters in lockstep. */
  ghost predicate BuiltUpTo(p: EventPatch, visId: int, cols: seq<Column>, vals: seq<Value>, n: nat)
  {
    && |cols| == |vals|
    && (forall c :: c in cols <==> Rank(c) < n && Present(p, c))
    && (forall i, j :: 0 <= i < j < |cols| ==> Rank(cols[i]) < Rank(cols[j]))
    && (forall e :: Apply(e, cols, vals) == PatchUpTo(e, p, visId, n))
  }

  /** Before the visibility step the list does not depend on the visibility id. */
  lemma AnyVisibility(p: EventPatch, v1: int, v2: int, cols: seq<Column>, vals: seq<Value>)
    requires BuiltUpTo(p, v1, cols, vals, 4)
    ensures BuiltUpTo(p, v2, cols, vals, 4)
  {
    forall e
      ensures Apply(e, cols, vals) == PatchUpTo(e, p, v2, 4)
    {
      assert PatchUpTo(e, p, v1, 4) == PatchUpTo(e, p, v2, 4);
    }
  }

  /** One step of the builder: pushes the column at the next position and its
      parameter exactly when the field is present. */
  method PushColumn(p: EventPatch, visId: int, cols: seq<Column>, vals: seq<Value>, c: Column, n: nat)
    returns (cols': seq<Column>, vals': seq<Value>)
    requires Rank(c) == n
    requires BuiltUpTo(p, visId, cols, vals, n)
    ensures BuiltUpTo(p, visId, cols', vals', n + 1)
    ensures Present(p, c) ==> cols' == cols + [c] && vals' == vals + [ValueOf(p, visId, c)]
    ensures !Present(p, c) ==> cols' == cols && vals' == vals
  {
    if Present(p, c) {
      cols', vals' := cols + [c], vals + [ValueOf(p, visId, c)];
      assert cols'[..|cols|] == cols && vals'[..|vals|] == vals;
      forall e
        ensures Apply(e, cols', vals') == PatchUpTo(e, p, visId, Rank(c) + 1)
      {
        assert Apply(e, cols', vals') == Assign(Apply(e, cols, vals), c, ValueOf(p, visId, c));
      }
    } else {
      cols', vals' := cols, vals;
      forall c' | Rank(c') == Rank(c)
        ensures c' == c
      {
      }
      forall e
        ensures Apply(e, cols', vals') == PatchUpTo(e, p, visId, Rank(c) + 1)
      {
        assert PatchUpTo(e, p, visId, Rank(c)) == PatchUpTo(e, p, visId, Rank(c) + 1);
      }
    }
  }

  /** The complete SET list means the patch: it names exactly the present
      fields, is empty only for an empty patch, and applies as the patch. */
  lemma Finished(p: EventPatch, visId: int, cols: seq<Column>, vals: seq<Value>)
    requires BuiltUpTo(p, visId, cols, vals, 5)
    ensures forall c :: c in cols <==> Present(p, c)
    ensures cols == [] <==> NoFields(p)
    ensures forall e :: Apply(e, cols, vals) == Patched(e, p, visId)
  {
    forall c
      ensures c in cols <==> Present(p, c)
    {
      assert Rank(c) < 5;
    }
    if !NoFields(p) {
      if p.title.Some? { assert TitleCol in cols; }
      else if p.description.Some? { assert DescriptionCol in cols; }
      else if p.startTime.Some? { assert StartCol in cols; }
      else if p.endTime.Some? { assert EndCol in cols; }
      else { assert VisibilityCol in cols; }
    }
    if cols != [] {
      assert cols[0] in cols && Present(p, cols[0]);
    }
  }

  /** The title, description, start and end steps of the builder. */
  method PushFields(p: EventPatch) returns (cols: seq<Column>, vals: seq<Value>)
    ensures BuiltUpTo(p, 0, cols, vals, 4)
  {
    cols, vals := PushColumn(p, 0, [], [], TitleCol, 0);
    cols, vals := PushColumn(p, 0, cols, vals, DescriptionCol, 1);
    cols, vals := PushColumn(p, 0, cols, vals, StartCol, 2);
    cols, vals := PushColumn(p, 0, cols, vals, EndCol, 3);
  }

  /** The statement PUT /events/:id prepares: the SET columns, their
      parameters in lockstep, and the event id as the last parameter. An
      unknown visibility name throws (500) at `[0]`; no present field is a 400. */
  method BuildEventUpdate(db: Db, id: int, p: EventPatch)
    returns (code: int, cols: seq<Column>, params: seq<Value>, visId: int)
    ensures code == ServerError <==> p.visibility.Some? && p.visibility.value !in db.eventVisibility
    ensures code != ServerError ==> (code == BadRequest <==> NoFields(p))
    ensures code == Ok || code == BadRequest || code == ServerError
    ensures code == Ok ==>
      && |params| == |cols| + 1
      && params[|cols|] == Number(id)
      && (forall c :: c in cols <==> Present(p, c))
      && (forall i, j :: 0 <= i < j < |cols| ==> Rank(cols[i]) < Rank(cols[j]))
      && (p.visibility.Some? ==> visId == db.eventVisibility[p.visibility.value])
      && (forall e :: Apply(e, cols, params[..|cols|]) == Patched(e, p, visId))
  {
    var vals: seq<Value>;
    cols, vals := PushFields(p);
    visId := 0;
    if p.visibility.Some? {
      if p.visibility.value !in db.eventVisibility {
        return ServerError, cols, vals, visId;
      }
      visId := db.eventVisibility[p.visibility.value];
    }
    AnyVisibility(p, 0, visId, cols, vals);
    cols, vals := PushColumn(p, visId, cols, vals, VisibilityCol, 4);
    Finished(p, visId, cols, vals);
    if cols == [] {
      return BadRequest, cols, vals, visId;
    }
    params := vals + [Number(id)];
    assert params[..|cols|] == vals;
    code := Ok;
  }

  /** PUT /events/:id: changes exactly the provided fields of that event. */
  method UpdateEvent(db: Db, id: int, p: EventPatch) returns (code: int)
    requires db.Valid()
    modifies db`events
    ensures db.Valid()
    ensures p.visibility.Some? && p.visibility.value !in db.eventVisibility ==>
      code == ServerError && db.events == old(db.events)
    ensures !(p.visibility.Some? && p.visibility.value !in db.eventVisibility) && NoFields(p) ==>
      code == BadRequest && db.events == old(db.events)
    ensures !(p.visibility.Some? && p.visibility.value !in db.eventVisibility) && !NoFields(p) ==>
      && (id !in old(db.events) ==> code == NotFound && db.events == old(db.events))
      && (id in old(db.events) ==>
           && code == Ok
           && db.events == old(db.events)[id := Patched(old(db.events)[id], p,
                if p.visibility.Some? then db.eventVisibility[p.visibility.value] else 0)])
  {
    var cols, params, visId;
    code, cols, params, visId := BuildEventUpdate(db, id, p);
    if code != Ok {
      return;
    }
    if id !in db.events {
      return NotFound;
    }
    db.events := db.events[id := Apply(db.events[id], cols, params[..|cols|])];
    code := Ok;
  }
}
