/** Saving documents in the Infobase store (infogami/infobase/_dbstore/save.py): each document
    becomes a record with the next revision, the `thing` table gets new rows or updated
    revisions, and a transaction with its versions and data is written. The `thing`, `data`,
    `version` and `transaction` tables are maps and sets. */
module DbSave {
  import opened Wrappers
  import opened Json
  import opened Dates

  type Doc = seq<(string, Value)>

  /** A Python `datetime`: always a valid one. */
  type Timestamp = t: DateTime | ValidDateTime(t) witness DateTime(Date(2000, 1, 1), 0, 0, 0, 0)

  /** The exceptions a save can raise: a missing key (`KeyError`), an empty list of documents
      (`IndexError`), or a second row for one key in the `thing` table (`IntegrityError`). */
  datatype Error = KeyError | IndexError | IntegrityError

  /** A row of the `thing` table, found by its key. */
  datatype ThingRow = ThingRow(id: int, typ: int, latestRevision: int, created: DateTime, lastModified: DateTime)

  /** What a record was before the save: the thing row and its latest data, or, for a new key,
      no id, no type, revision 0 and the save's timestamp as `created`. */
  datatype Prev = Prev(id: Option<int>, typ: Option<int>, revision: int, data: Option<Doc>, created: DateTime)

  /** What `make_record` builds for one document. */
  datatype Record = Record(key: string, id: Option<int>, typ: int, revision: int, data: Doc,
                           created: DateTime, lastModified: DateTime, prev: Prev)

  /** A row of the `transaction` table. */
  datatype Transaction = Transaction(id: int, action: string, authorId: Option<int>, ip: string, comment: string, created: DateTime)

  /** A row of the `version` table. */
  datatype Version = Version(thingId: int, revision: int, transactionId: int)

  /** `{"type": "/type/datetime", "value": t.isoformat()}`. */
  function DateTimeValue(t: Timestamp): Value {
    Dict([("type", Str("/type/datetime")), ("value", Str(IsoFormat(t)))])
  }

  /** `doc['key']`, which must be there (and is a key's text). */
  function KeyOf(doc: Doc): (r: Result<string, Error>)
    ensures r.Ok? <==> Get(doc, "key").Some? && IsText(Get(doc, "key").value)
    ensures r.Ok? ==> r.value == TextOf(Get(doc, "key").value)
  {
    match Get(doc, "key")
    case Some(k) => if IsText(k) then Ok(TextOf(k)) else Err(KeyError)
    case None => Err(KeyError)
  }

  /** `doc['type']['key']`. */
  function TypeKeyOf(doc: Doc): (r: Result<string, Error>)
    ensures r.Ok? <==> (Get(doc, "type").Some? && Get(doc, "type").value.Dict? &&
      Get(Get(doc, "type").value.entries, "key").Some? && IsText(Get(Get(doc, "type").value.entries, "key").value))
  {
    match Get(doc, "type")
    case Some(t) =>
      if t.Dict? then KeyOf(t.entries) else Err(KeyError)
    case None => Err(KeyError)
  }

  /** The creation times in the `thing` table are real datetimes. */
  predicate TimesValid(things: map<string, ThingRow>) {
    forall k :: k in things ==> ValidDateTime(things[k].created)
  }

  /** The thing row of a key with the data of its latest revision, as the joined select finds
      it; a key without both is new. */
  function Latest(things: map<string, ThingRow>, data: map<(int, int), Doc>, key: string): (r: Option<(ThingRow, Doc)>)
    ensures r.Some? <==> key in things && (things[key].id, things[key].latestRevision) in data
    ensures r.Some? ==> r.value.0 == things[key]
  {
    if key in things && (things[key].id, things[key].latestRevision) in data
    then Some((things[key], data[(things[key].id, things[key].latestRevision)]))
    else None
  }

  /** The document with its revision, latest revision, creation and modification times. */
  function Stamp(doc: Doc, revision: int, created: Timestamp, modified: Timestamp): (r: Doc)
    ensures Get(r, "revision") == Some(Int(revision)) && Get(r, "latest_revision") == Some(Int(revision))
    ensures Get(r, "created") == Some(DateTimeValue(created)) && Get(r, "last_modified") == Some(DateTimeValue(modified))
    ensures forall n :: n !in {"revision", "latest_revision", "created", "last_modified"} ==> Get(r, n) == Get(doc, n)
  {
    var a := Put(doc, "latest_revision", Int(revision));
    var b := Put(a, "revision", Int(revision));
    var c := Put(b, "created", DateTimeValue(created));
    var d := Put(c, "last_modified", DateTimeValue(modified));
    StampGets(doc, revision, created, modified);
    d
  }

  lemma StampGets(doc: Doc, revision: int, created: Timestamp, modified: Timestamp)
    ensures var d := Put(Put(Put(Put(doc, "latest_revision", Int(revision)), "revision", Int(revision)), "created", DateTimeValue(created)), "last_modified", DateTimeValue(modified));
      Get(d, "revision") == Some(Int(revision)) && Get(d, "latest_revision") == Some(Int(revision)) &&
      Get(d, "created") == Some(DateTimeValue(created)) && Get(d, "last_modified") == Some(DateTimeValue(modified)) &&
      forall n :: n !in {"revision", "latest_revision", "created", "last_modified"} ==> Get(d, n) == Get(doc, n)
  {
    StampGet(doc, revision, created, modified, "revision");
    StampGet(doc, revision, created, modified, "latest_revision");
    StampGet(doc, revision, created, modified, "created");
    StampGet(doc, revision, created, modified, "last_modified");
    forall n | n !in {"revision", "latest_revision", "created", "last_modified"} {
      StampGet(doc, revision, created, modified, n);
    }
  }

  lemma StampGet(doc: Doc, revision: int, created: Timestamp, modified: Timestamp, n: string)
    ensures var d := Put(Put(Put(Put(doc, "latest_revision", Int(revision)), "revision", Int(revision)), "created", DateTimeValue(created)), "last_modified", DateTimeValue(modified));
      Get(d, n) ==
        if n == "last_modified" then Some(DateTimeValue(modified))
        else if n == "created" then Some(DateTimeValue(created))
        else if n == "revision" || n == "latest_revision" then Some(Int(revision))
        else Get(doc, n)
  {
    var a := Put(doc, "latest_revision", Int(revision));
    var b := Put(a, "revision", Int(revision));
    var c := Put(b, "created", DateTimeValue(created));
    GetPut(c, "last_modified", DateTimeValue(modified), n);
    GetPut(b, "created", DateTimeValue(created), n);
    GetPut(a, "revision", Int(revision), n);
    GetPut(doc, "latest_revision", Int(revision), n);
  }

  /** `make_record(doc)`: the next revision of the document's key (1 for a new key), its type's
      id, the original creation time, and a copy of the document stamped with them. */
  function MakeRecord(things: map<string, ThingRow>, data: map<(int, int), Doc>, typeIds: map<string, int>,
                      doc: Doc, timestamp: Timestamp): (r: Result<Record, Error>)
    requires TimesValid(things)
    ensures r.Err? <==> KeyOf(doc).Err? || TypeKeyOf(doc).Err? || TypeKeyOf(doc).value !in typeIds
    ensures r.Ok? ==> r.value.key == KeyOf(doc).value && r.value.typ == typeIds[TypeKeyOf(doc).value]
    ensures r.Ok? && Latest(things, data, r.value.key).None? ==>
      r.value.revision == 1 && r.value.id.None? && r.value.created == timestamp && r.value.prev.typ.None? && r.value.prev.data.None?
    ensures r.Ok? && Latest(things, data, r.value.key).Some? ==>
      var (row, latest) := Latest(things, data, r.value.key).value;
      r.value.revision == row.latestRevision + 1 && r.value.id == Some(row.id) && r.value.created == row.created &&
      r.value.prev.typ == Some(row.typ) && r.value.prev.data == Some(latest)
    ensures r.Ok? ==> (r.value.revision == r.value.prev.revision + 1 && r.value.id == r.value.prev.id &&
      r.value.lastModified == timestamp && r.value.created == r.value.prev.created)
    ensures r.Ok? ==> r.value.data == Stamp(doc, r.value.revision, r.value.created, timestamp)
  {
    match KeyOf(doc)
    case Err(e) => Err(e)
    case Ok(key) =>
      match TypeKeyOf(doc)
      case Err(e) => Err(e)
      case Ok(typeKey) =>
        if typeKey !in typeIds then Err(KeyError)
        else
          var prev := match Latest(things, data, key)
            case None => Prev(None, None, 0, None, timestamp)
            case Some((row, latest)) => Prev(Some(row.id), Some(row.typ), row.latestRevision, Some(latest), row.created);
          var revision := prev.revision + 1;
          Ok(Record(key, prev.id, typeIds[typeKey], revision, Stamp(doc, revision, prev.created, timestamp), prev.created, timestamp, prev))
  }

  /** `_get_records_for_save(docs, timestamp)`: a record per document in order, or the
      `KeyError` of a document that lacks its key, its type or its type's row. */
  function RecordsForSave(things: map<string, ThingRow>, data: map<(int, int), Doc>, typeIds: map<string, int>,
                          docs: seq<Doc>, timestamp: Timestamp): (r: Result<seq<Record>, Error>)
    requires TimesValid(things)
    ensures r.Err? <==> exists i :: 0 <= i < |docs| && MakeRecord(things, data, typeIds, docs[i], timestamp).Err?
    ensures r.Ok? ==> |r.value| == |docs| && forall i :: 0 <= i < |docs| ==> Ok(r.value[i]) == MakeRecord(things, data, typeIds, docs[i], timestamp)
  {
    if forall i :: 0 <= i < |docs| ==> MakeRecord(things, data, typeIds, docs[i], timestamp).Ok?
    then Ok(seq(|docs|, i requires 0 <= i < |docs| && MakeRecord(things, data, typeIds, docs[i], timestamp).Ok? =>
      MakeRecord(things, data, typeIds, docs[i], timestamp).value))
    else Err(KeyError)
  }

  /** No two records (documents) share a key. */
  predicate DistinctKeys(records: seq<Record>) {
    forall i, j :: 0 <= i < j < |records| ==> records[i].key != records[j].key
  }

  /** The keys of the records. */
  function KeysOf(records: seq<Record>): (ks: set<string>)
    ensures forall i :: 0 <= i < |records| ==> records[i].key in ks
  {
    set r | r in records :: r.key
  }

  /** Records as `make_record` derives them from the `thing` table: a new one has no row, an
      existing one carries its row's id, type, revision and creation time; one save shares one
      timestamp. */
  predicate FromTable(records: seq<Record>, things: map<string, ThingRow>) {
    DistinctKeys(records) &&
    forall r :: r in records ==>
      r.revision == r.prev.revision + 1 && r.id == r.prev.id && r.lastModified == records[0].lastModified &&
      (r.id.None? ==> r.key !in things && r.prev.revision == 0 && r.prev.typ.None? && ValidDateTime(r.created)) &&
      (r.id.Some? ==> (r.key in things && things[r.key].id == r.id.value && things[r.key].latestRevision == r.prev.revision &&
        r.prev.revision >= 1 && Some(things[r.key].typ) == r.prev.typ && things[r.key].created == r.created))
  }

  /** The records `make_record` produces from the tables satisfy `FromTable`, when the keys
      are distinct and every found row's latest data is there. */
  lemma RecordsAreFromTable(things: map<string, ThingRow>, data: map<(int, int), Doc>, typeIds: map<string, int>,
                            docs: seq<Doc>, timestamp: Timestamp)
    requires TimesValid(things)
    requires RecordsForSave(things, data, typeIds, docs, timestamp).Ok?
    requires DistinctKeys(RecordsForSave(things, data, typeIds, docs, timestamp).value)
    requires forall k :: k in things ==> things[k].latestRevision >= 1 && (things[k].id, things[k].latestRevision) in data
    ensures FromTable(RecordsForSave(things, data, typeIds, docs, timestamp).value, things)
  {
    var records := RecordsForSave(things, data, typeIds, docs, timestamp).value;
    MadeFromTable(things, data, typeIds, docs, timestamp, records);
  }

  /** Records each made by `make_record` from its document agree with the table. */
  lemma MadeFromTable(things: map<string, ThingRow>, data: map<(int, int), Doc>, typeIds: map<string, int>,
                      docs: seq<Doc>, timestamp: Timestamp, records: seq<Record>)
    requires TimesValid(things) && DistinctKeys(records) && |records| == |docs|
    requires forall i :: 0 <= i < |docs| ==> Ok(records[i]) == MakeRecord(things, data, typeIds, docs[i], timestamp)
    requires forall k :: k in things ==> things[k].latestRevision >= 1 && (things[k].id, things[k].latestRevision) in data
    ensures FromTable(records, things)
  {
    forall r | r in records
      ensures r.revision == r.prev.revision + 1 && r.id == r.prev.id && r.lastModified == records[0].lastModified
      ensures r.id.None? ==> r.key !in things && r.prev.revision == 0 && r.prev.typ.None? && ValidDateTime(r.created)
      ensures r.id.Some? ==> (r.key in things && things[r.key].id == r.id.value && things[r.key].latestRevision == r.prev.revision &&
        r.prev.revision >= 1 && Some(things[r.key].typ) == r.prev.typ && things[r.key].created == r.created)
    {
      var i :| 0 <= i < |records| && records[i] == r;
      RecordFromTable(things, data, typeIds, docs[0], timestamp, records[0]);
      RecordFromTable(things, data, typeIds, docs[i], timestamp, r);
    }
  }

  /** One record `make_record` produces agrees with the table. */
  lemma RecordFromTable(things: map<string, ThingRow>, data: map<(int, int), Doc>, typeIds: map<string, int>,
                        doc: Doc, timestamp: Timestamp, r: Record)
    requires TimesValid(things) && Ok(r) == MakeRecord(things, data, typeIds, doc, timestamp)
    requires forall k :: k in things ==> things[k].latestRevision >= 1 && (things[k].id, things[k].latestRevision) in data
    ensures r.revision == r.prev.revision + 1 && r.id == r.prev.id && r.lastModified == timestamp
    ensures r.id.None? ==> r.key !in things && r.prev.revision == 0 && r.prev.typ.None? && ValidDateTime(r.created)
    ensures r.id.Some? ==> (r.key in things && things[r.key].id == r.id.value && things[r.key].latestRevision == r.prev.revision &&
      r.prev.revision >= 1 && Some(things[r.key].typ) == r.prev.typ && things[r.key].created == r.created)
  {
  }

  /** What the `thing` row of a saved record ends as. */
  function FinalRow(r: Record, id: int, timestamp: DateTime): ThingRow {
    ThingRow(id, r.typ, r.revision, r.created, timestamp)
  }

  /** The row after the update for a record whose type changed (a new record's type always
      differs from its missing previous type): revision, type and modification time written. */
  function TypeChanged(row: ThingRow, rec: Record, timestamp: DateTime): ThingRow {
    if Some(rec.typ) != rec.prev.typ
    then row.(lastModified := timestamp, latestRevision := rec.revision, typ := rec.typ)
    else row
  }

  /** The row after the batch update of the rest: one more revision, new modification time. */
  function Bumped(row: ThingRow, rec: Record, timestamp: DateTime): ThingRow {
    if Some(rec.typ) == rec.prev.typ && rec.revision > 1
    then row.(latestRevision := row.latestRevision + 1, lastModified := timestamp)
    else row
  }

  /** The ids of the records that keep their type and are not new: the rows the batch update
      of `_update_thing_table` selects. */
  function RestIds(out: seq<Record>): (ids: set<int>)
    requires forall j :: 0 <= j < |out| ==> out[j].id.Some?
    ensures forall j :: 0 <= j < |out| && Some(out[j].typ) == out[j].prev.typ && out[j].revision > 1 ==> out[j].id.value in ids
  {
    set j | 0 <= j < |out| && Some(out[j].typ) == out[j].prev.typ && out[j].revision > 1 :: out[j].id.value
  }

  /** `UPDATE thing SET latest_revision=latest_revision+1, last_modified=$timestamp WHERE id in
      $rest`. */
  function Bump(things: map<string, ThingRow>, ids: set<int>, timestamp: DateTime): map<string, ThingRow> {
    map k | k in things :: if things[k].id in ids then things[k].(latestRevision := things[k].latestRevision + 1, lastModified := timestamp) else things[k]
  }

  /** The same keys with the same ids and creation times. */
  ghost predicate SameIds(before: map<string, ThingRow>, after: map<string, ThingRow>) {
    (forall k :: k in after <==> k in before) &&
    (forall k :: k in before ==> after[k].id == before[k].id && after[k].created == before[k].created)
  }

  /** Only rows of the given keys differ. */
  ghost predicate OnlyKeys(before: map<string, ThingRow>, after: map<string, ThingRow>, keys: set<string>) {
    forall k :: k in before && k in after && after[k] != before[k] ==> k in keys
  }

  /** `after` is `before` with each record's row passed through `TypeChanged`; ids, creation
      times and other rows are kept. */
  ghost predicate TypesChanged(before: map<string, ThingRow>, after: map<string, ThingRow>, out: seq<Record>, timestamp: DateTime) {
    SameIds(before, after) && OnlyKeys(before, after, KeysOf(out)) &&
    (forall j :: 0 <= j < |out| ==> out[j].key in before && after[out[j].key] == TypeChanged(before[out[j].key], out[j], timestamp))
  }

  /** `after` is `before` with each record's row passed through `Bumped`; ids, creation times
      and other rows are kept. */
  ghost predicate RestBumped(before: map<string, ThingRow>, after: map<string, ThingRow>, out: seq<Record>, timestamp: DateTime) {
    SameIds(before, after) && OnlyKeys(before, after, KeysOf(out)) &&
    (forall j :: 0 <= j < |out| ==> out[j].key in before && after[out[j].key] == Bumped(before[out[j].key], out[j], timestamp))
  }

  /** The batch update by id touches exactly the rows of the records it selects, because ids
      are distinct. */
  lemma BumpRows(things: map<string, ThingRow>, nextId: int, out: seq<Record>, timestamp: DateTime)
    requires IdsFresh(things, nextId) && DistinctKeys(out)
    requires forall j :: 0 <= j < |out| ==> out[j].key in things && out[j].id == Some(things[out[j].key].id)
    ensures RestBumped(things, Bump(things, RestIds(out), timestamp), out, timestamp)
  {
    var after := Bump(things, RestIds(out), timestamp);
    forall j | 0 <= j < |out|
      ensures after[out[j].key] == Bumped(things[out[j].key], out[j], timestamp)
    {
      var k := out[j].key;
      if things[k].id in RestIds(out) {
        var i :| 0 <= i < |out| && Some(out[i].typ) == out[i].prev.typ && out[i].revision > 1 && out[i].id.value == things[k].id;
        assert out[i].key == k;
        assert i == j;
      }
    }
    forall k | k in things && after[k] != things[k]
      ensures k in KeysOf(out)
    {
      var i :| 0 <= i < |out| && Some(out[i].typ) == out[i].prev.typ && out[i].revision > 1 && out[i].id.value == things[k].id;
      assert out[i].key == k;
    }
  }

  /** Keeping keys and ids keeps them fresh. */
  lemma IdsFreshKept(before: map<string, ThingRow>, after: map<string, ThingRow>, nextId: int)
    requires IdsFresh(before, nextId)
    requires forall k :: k in after <==> k in before
    requires forall k :: k in before ==> after[k].id == before[k].id
    ensures IdsFresh(after, nextId)
  {
  }

  /** Thing ids are distinct and below the next one. */
  ghost predicate IdsFresh(things: map<string, ThingRow>, nextThingId: int) {
    1 <= nextThingId && (forall k :: k in things ==> 1 <= things[k].id < nextThingId) &&
    (forall a, b :: a in things && b in things && a != b ==> things[a].id != things[b].id)
  }

  /** The memo of `get_thing_ids` agrees with the table. */
  ghost predicate MemoAgrees(thingIds: map<string, int>, things: map<string, ThingRow>) {
    forall k :: k in thingIds ==> k in things && things[k].id == thingIds[k]
  }

  lemma IdsFreshInsert(things: map<string, ThingRow>, nextThingId: int, key: string, row: ThingRow)
    requires IdsFresh(things, nextThingId) && key !in things && row.id == nextThingId
    ensures IdsFresh(things[key := row], nextThingId + 1)
  {
    var t := things[key := row];
    forall a, b | a in t && b in t && a != b
      ensures t[a].id != t[b].id
    {
      if a != key && b != key {
        assert t[a] == things[a] && t[b] == things[b];
      } else if a == key {
        assert t[b] == things[b];
      } else {
        assert t[a] == things[a];
      }
    }
  }

  /** The state after the insert has gone through `records[..i]`: the ids are still fresh,
      old rows are untouched, and each new record among the first i has a row with the id
      recorded for its key. */
  ghost predicate Inserted(records: seq<Record>, i: int, before: map<string, ThingRow>, startId: int,
                           things: map<string, ThingRow>, nextThingId: int, newIds: map<string, int>) {
    0 <= i <= |records| &&
    IdsFresh(things, nextThingId) && startId <= nextThingId &&
    (forall k :: k in before ==> k in things && things[k] == before[k]) &&
    InsertedRows(records, i, startId, things, newIds) &&
    InsertedAbsent(records, i, things, newIds) &&
    InsertedOrigin(records, i, before, things, newIds)
  }

  /** Each new record among the first i has a row with the id recorded for its key. */
  ghost predicate InsertedRows(records: seq<Record>, i: int, startId: int, things: map<string, ThingRow>, newIds: map<string, int>) {
    forall j :: 0 <= j < i && j < |records| && records[j].revision == 1 ==>
      records[j].key in newIds && startId <= newIds[records[j].key] && records[j].key in things &&
      things[records[j].key] == ThingRow(newIds[records[j].key], records[j].typ, 1, records[j].created, records[j].lastModified)
  }

  /** No id is recorded for a record not yet reached or not new, and the new records not yet
      reached have no row. */
  ghost predicate InsertedAbsent(records: seq<Record>, i: int, things: map<string, ThingRow>, newIds: map<string, int>) {
    (forall j :: 0 <= j < |records| && (i <= j || records[j].revision != 1) ==> records[j].key !in newIds) &&
    (forall j :: 0 <= j && i <= j < |records| && records[j].revision == 1 ==> records[j].key !in things)
  }

  /** Every row is an old one or a new record's, and every recorded id is a reached record's. */
  ghost predicate InsertedOrigin(records: seq<Record>, i: int, before: map<string, ThingRow>, things: map<string, ThingRow>,
                                 newIds: map<string, int>) {
    (forall k :: k in things ==> k in before || k in newIds) &&
    (forall k :: k in newIds ==> exists j :: 0 <= j < i && j < |records| && records[j].key == k)
  }

  /** One step of the insert keeps `Inserted`. */
  lemma InsertStep(records: seq<Record>, i: int, before: map<string, ThingRow>, startId: int,
                   things: map<string, ThingRow>, nextThingId: int, newIds: map<string, int>)
    requires DistinctKeys(records) && 0 <= i < |records|
    requires Inserted(records, i, before, startId, things, nextThingId, newIds)
    ensures records[i].revision != 1 ==> Inserted(records, i + 1, before, startId, things, nextThingId, newIds)
    ensures records[i].revision == 1 ==>
      var rec := records[i];
      Inserted(records, i + 1, before, startId,
        things[rec.key := ThingRow(nextThingId, rec.typ, 1, rec.created, rec.lastModified)], nextThingId + 1,
        newIds[rec.key := nextThingId])
  {
    if records[i].revision == 1 {
      InsertNewStep(records, i, before, startId, things, nextThingId, newIds);
    } else {
      InsertSkipStep(records, i, before, startId, things, nextThingId, newIds);
    }
  }

  /** A record that is not new is passed over. */
  lemma InsertSkipStep(records: seq<Record>, i: int, before: map<string, ThingRow>, startId: int,
                       things: map<string, ThingRow>, nextThingId: int, newIds: map<string, int>)
    requires 0 <= i < |records| && records[i].revision != 1
    requires Inserted(records, i, before, startId, things, nextThingId, newIds)
    ensures Inserted(records, i + 1, before, startId, things, nextThingId, newIds)
  {
    forall k | k in newIds ensures exists j :: 0 <= j < i + 1 && records[j].key == k {
      var j :| 0 <= j < i && records[j].key == k;
    }
  }

  /** A new record gets a row under the next id. */
  lemma InsertNewStep(records: seq<Record>, i: int, before: map<string, ThingRow>, startId: int,
                      things: map<string, ThingRow>, nextThingId: int, newIds: map<string, int>)
    requires DistinctKeys(records) && 0 <= i < |records| && records[i].revision == 1
    requires Inserted(records, i, before, startId, things, nextThingId, newIds)
    ensures var rec := records[i];
      Inserted(records, i + 1, before, startId,
        things[rec.key := ThingRow(nextThingId, rec.typ, 1, rec.created, rec.lastModified)], nextThingId + 1,
        newIds[rec.key := nextThingId])
  {
    var rec := records[i];
    var row := ThingRow(nextThingId, rec.typ, 1, rec.created, rec.lastModified);
    IdsFreshInsert(things, nextThingId, rec.key, row);
    NewStepRows(records, i, startId, things, nextThingId, newIds);
    NewStepAbsent(records, i, things, nextThingId, newIds);
    NewStepOrigin(records, i, before, things, nextThingId, newIds);
  }

  lemma NewStepRows(records: seq<Record>, i: int, startId: int, things: map<string, ThingRow>, nextThingId: int,
                    newIds: map<string, int>)
    requires 0 <= i < |records| && records[i].revision == 1 && startId <= nextThingId
    requires InsertedRows(records, i, startId, things, newIds) && InsertedAbsent(records, i, things, newIds)
    ensures var rec := records[i];
      InsertedRows(records, i + 1, startId, things[rec.key := ThingRow(nextThingId, rec.typ, 1, rec.created, rec.lastModified)],
        newIds[rec.key := nextThingId])
  {
    var rec := records[i];
    forall j | 0 <= j < i && records[j].revision == 1 ensures records[j].key != rec.key {
      assert records[j].key in newIds;
    }
  }

  lemma NewStepAbsent(records: seq<Record>, i: int, things: map<string, ThingRow>, nextThingId: int, newIds: map<string, int>)
    requires DistinctKeys(records) && 0 <= i < |records| && records[i].revision == 1
    requires InsertedAbsent(records, i, things, newIds)
    ensures var rec := records[i];
      InsertedAbsent(records, i + 1, things[rec.key := ThingRow(nextThingId, rec.typ, 1, rec.created, rec.lastModified)],
        newIds[rec.key := nextThingId])
  {
    var rec := records[i];
    forall j | 0 <= j < |records| && j != i ensures records[j].key != rec.key {
    }
  }

  lemma NewStepOrigin(records: seq<Record>, i: int, before: map<string, ThingRow>, things: map<string, ThingRow>,
                      nextThingId: int, newIds: map<string, int>)
    requires 0 <= i < |records|
    requires InsertedOrigin(records, i, before, things, newIds)
    ensures var rec := records[i];
      InsertedOrigin(records, i + 1, before, things[rec.key := ThingRow(nextThingId, rec.typ, 1, rec.created, rec.lastModified)],
        newIds[rec.key := nextThingId])
  {
    var rec := records[i];
    var ids := newIds[rec.key := nextThingId];
    forall k | k in ids ensures exists j :: 0 <= j < i + 1 && j < |records| && records[j].key == k {
      if k != rec.key {
        var j :| 0 <= j < i && j < |records| && records[j].key == k;
      }
    }
  }

  /** The records with the ids the insert gave the new ones. */
  function WithIds(records: seq<Record>, newIds: map<string, int>): (out: seq<Record>)
    ensures |out| == |records|
    ensures forall j :: 0 <= j < |records| ==>
      out[j] == (if records[j].key in newIds then records[j].(id := Some(newIds[records[j].key])) else records[j])
  {
    seq(|records|, j requires 0 <= j < |records| =>
      if records[j].key in newIds then records[j].(id := Some(newIds[records[j].key])) else records[j])
  }

  /** What `_update_thing_table` promises: each returned record is the input record with an id
      (the old one, or a fresh one for a new record), its row holds `FinalRow`, no row
      disappears, and only the records' rows change or appear. */
  ghost predicate Updated(records: seq<Record>, out: seq<Record>, before: map<string, ThingRow>, startId: int,
                          after: map<string, ThingRow>) {
    |out| == |records| &&
    (forall i :: 0 <= i < |records| ==>
      out[i].id.Some? && out[i] == records[i].(id := out[i].id) && records[i].key in after &&
      after[records[i].key] == FinalRow(records[i], out[i].id.value, records[0].lastModified)) &&
    (forall i :: 0 <= i < |records| && records[i].id.Some? ==> out[i] == records[i]) &&
    (forall i :: 0 <= i < |records| && records[i].id.None? ==> startId <= out[i].id.value) &&
    (forall k :: k in before ==> k in after) &&
    OnlyKeys(before, after, KeysOf(records)) &&
    (forall k :: k in after ==> k in before || k in KeysOf(records))
  }

  /** Insert, type-change update and batch update together give `Updated`. */
  lemma UpdateRows(records: seq<Record>, before: map<string, ThingRow>, startId: int,
                   inserted: map<string, ThingRow>, nextId: int, newIds: map<string, int>,
                   changed: map<string, ThingRow>, final: map<string, ThingRow>)
    requires records != [] && FromTable(records, before)
    requires Inserted(records, |records|, before, startId, inserted, nextId, newIds)
    requires TypesChanged(inserted, changed, WithIds(records, newIds), records[0].lastModified)
    requires RestBumped(changed, final, WithIds(records, newIds), records[0].lastModified)
    ensures Updated(records, WithIds(records, newIds), before, startId, final)
  {
    RowsFinal(records, before, startId, inserted, nextId, newIds, changed, final);
    InsertedFrame(records, before, startId, inserted, nextId, newIds);
    WithIdsKeys(records, newIds);
    RowsFramed(before, inserted, changed, final, KeysOf(records));
  }

  /** Each record's row ends as `FinalRow`, with the record's old id or a fresh one. */
  lemma RowsFinal(records: seq<Record>, before: map<string, ThingRow>, startId: int,
                  inserted: map<string, ThingRow>, nextId: int, newIds: map<string, int>,
                  changed: map<string, ThingRow>, final: map<string, ThingRow>)
    requires records != [] && FromTable(records, before)
    requires Inserted(records, |records|, before, startId, inserted, nextId, newIds)
    requires TypesChanged(inserted, changed, WithIds(records, newIds), records[0].lastModified)
    requires RestBumped(changed, final, WithIds(records, newIds), records[0].lastModified)
    ensures forall i :: 0 <= i < |records| ==> (var out := WithIds(records, newIds);
      out[i].id.Some? && out[i] == records[i].(id := out[i].id) && records[i].key in final &&
      final[records[i].key] == FinalRow(records[i], out[i].id.value, records[0].lastModified) &&
      (records[i].id.Some? ==> out[i] == records[i]) &&
      (records[i].id.None? ==> startId <= out[i].id.value))
  {
    var out := WithIds(records, newIds);
    forall j | 0 <= j < |records|
      ensures out[j].id.Some? && out[j] == records[j].(id := out[j].id)
      ensures records[j].key in final
      ensures final[records[j].key] == FinalRow(records[j], out[j].id.value, records[0].lastModified)
      ensures records[j].id.Some? ==> out[j] == records[j]
      ensures records[j].id.None? ==> startId <= out[j].id.value
    {
      var rec := records[j];
      assert rec in records;
      if rec.id.None? {
        assert rec.revision == 1 && rec.key in newIds;
      } else {
        assert rec.revision != 1 && rec.key !in newIds && rec.key in before;
      }
      OneRow(rec, out[j], records[0].lastModified, inserted[rec.key], changed[rec.key], final[rec.key], startId);
    }
  }

  /** No row disappears and only the given keys' rows change or appear, through an insert
      and two updates. */
  lemma RowsFramed(before: map<string, ThingRow>, inserted: map<string, ThingRow>, changed: map<string, ThingRow>,
                   final: map<string, ThingRow>, keys: set<string>)
    requires forall k :: k in before ==> k in inserted && inserted[k] == before[k]
    requires forall k :: k in inserted ==> k in before || k in keys
    requires SameIds(inserted, changed) && OnlyKeys(inserted, changed, keys)
    requires SameIds(changed, final) && OnlyKeys(changed, final, keys)
    ensures forall k :: k in before ==> k in final
    ensures OnlyKeys(before, final, keys)
    ensures forall k :: k in final ==> k in before || k in keys
  {
  }

  /** Giving the new records their ids keeps the keys. */
  lemma WithIdsKeys(records: seq<Record>, newIds: map<string, int>)
    ensures KeysOf(WithIds(records, newIds)) == KeysOf(records)
  {
    var out := WithIds(records, newIds);
    forall k | k in KeysOf(out)
      ensures k in KeysOf(records)
    {
      var r :| r in out && r.key == k;
      var j :| 0 <= j < |out| && out[j] == r;
      assert records[j] in records;
    }
    forall k | k in KeysOf(records)
      ensures k in KeysOf(out)
    {
      var r :| r in records && r.key == k;
      var j :| 0 <= j < |records| && records[j] == r;
      assert out[j] in out;
    }
  }

  /** The insert keeps the old rows and adds only records' rows. */
  lemma InsertedFrame(records: seq<Record>, before: map<string, ThingRow>, startId: int,
                      inserted: map<string, ThingRow>, nextId: int, newIds: map<string, int>)
    requires Inserted(records, |records|, before, startId, inserted, nextId, newIds)
    ensures forall k :: k in before ==> k in inserted && inserted[k] == before[k]
    ensures forall k :: k in inserted ==> k in before || k in KeysOf(records)
  {
    forall k | k in inserted && k !in before
      ensures k in KeysOf(records)
    {
      var j :| 0 <= j < |records| && records[j].key == k;
    }
  }

  /** After the insert, every record has a row, and its id in the result is its row's id. */
  lemma OutIds(records: seq<Record>, before: map<string, ThingRow>, startId: int,
               inserted: map<string, ThingRow>, nextId: int, newIds: map<string, int>)
    requires FromTable(records, before)
    requires Inserted(records, |records|, before, startId, inserted, nextId, newIds)
    ensures DistinctKeys(WithIds(records, newIds))
    ensures forall j :: 0 <= j < |records| ==> (var out := WithIds(records, newIds);
      out[j].key in inserted && out[j].id == Some(inserted[out[j].key].id))
  {
    var out := WithIds(records, newIds);
    forall j | 0 <= j < |records|
      ensures out[j].key in inserted && out[j].id == Some(inserted[out[j].key].id)
    {
      assert records[j] in records;
    }
  }

  /** One record's row through the three updates. */
  lemma OneRow(rec: Record, out: Record, timestamp: DateTime, inserted: ThingRow, changed: ThingRow, final: ThingRow, startId: int)
    requires rec.revision == rec.prev.revision + 1 && rec.id == rec.prev.id && rec.lastModified == timestamp
    requires rec.id.None? ==> (rec.prev.revision == 0 && rec.prev.typ.None? && out == rec.(id := Some(inserted.id)) &&
      inserted == ThingRow(inserted.id, rec.typ, 1, rec.created, rec.lastModified) && startId <= inserted.id)
    requires rec.id.Some? ==> (out == rec && inserted.id == rec.id.value && inserted.latestRevision == rec.prev.revision &&
      rec.prev.revision >= 1 && Some(inserted.typ) == rec.prev.typ && inserted.created == rec.created)
    requires changed == TypeChanged(inserted, out, timestamp) && final == Bumped(changed, out, timestamp)
    ensures out.id.Some? && out == rec.(id := out.id) && final == FinalRow(rec, out.id.value, timestamp)
    ensures rec.id.None? ==> startId <= out.id.value
  {
  }

  /** The rows after the updates keep the ids, keys and creation times the insert left. */
  lemma UpdateKeepsValid(thingIds: map<string, int>, before: map<string, ThingRow>, startId: int,
                         records: seq<Record>, inserted: map<string, ThingRow>, nextId: int, newIds: map<string, int>,
                         final: map<string, ThingRow>)
    requires MemoAgrees(thingIds, before) && TimesValid(before) && FromTable(records, before)
    requires Inserted(records, |records|, before, startId, inserted, nextId, newIds)
    requires forall k :: k in final <==> k in inserted
    requires forall k :: k in inserted ==> final[k].id == inserted[k].id && final[k].created == inserted[k].created
    ensures MemoAgrees(thingIds, final) && TimesValid(final)
  {
    forall k | k in final
      ensures ValidDateTime(final[k].created)
    {
      if k !in before {
        var j :| 0 <= j < |records| && records[j].key == k;
        assert records[j] in records;
      }
    }
  }

  /** The `type.key` of every document, or an error if one has none (the generator that
      `get_thing_ids` consumes). */
  function TypeKeys(docs: seq<Doc>): (r: Result<seq<string>, Error>)
    ensures r.Ok? <==> forall i :: 0 <= i < |docs| ==> TypeKeyOf(docs[i]).Ok?
    ensures r.Ok? ==> |r.value| == |docs| && forall i :: 0 <= i < |docs| ==> r.value[i] == TypeKeyOf(docs[i]).value
  {
    if forall i :: 0 <= i < |docs| ==> TypeKeyOf(docs[i]).Ok?
    then Ok(seq(|docs|, i requires 0 <= i < |docs| && TypeKeyOf(docs[i]).Ok? => TypeKeyOf(docs[i]).value))
    else Err(KeyError)
  }

  /** The ids the `thing` table holds for the given keys. */
  function ThingIdsOf(things: map<string, ThingRow>, keys: seq<string>): (r: map<string, int>)
    ensures forall k :: k in r <==> k in keys && k in things
    ensures forall k :: k in r ==> r[k] == things[k].id
  {
    if keys == [] then map[]
    else
      var m := ThingIdsOf(things, keys[1..]);
      assert forall k :: k in keys <==> k == keys[0] || k in keys[1..];
      if keys[0] in things then m[keys[0] := things[keys[0]].id] else m
  }

  /** A map with the ids of exactly the keys that name a thing is `ThingIdsOf`. */
  lemma IdsOfKeys(r: map<string, int>, things: map<string, ThingRow>, keys: seq<string>)
    requires forall k :: k in r <==> k in keys && k in things
    requires forall k :: k in r ==> r[k] == things[k].id
    ensures r == ThingIdsOf(things, keys)
  {
    var m := ThingIdsOf(things, keys);
    assert forall k :: k in r <==> k in m;
  }

  /** The records a save of `docs` builds from the tables as they are. */
  function PlannedRecords(things: map<string, ThingRow>, data: map<(int, int), Doc>, docs: seq<Doc>,
                          timestamp: Timestamp): (r: Result<seq<Record>, Error>)
    requires TimesValid(things)
    ensures r.Err? <==> (TypeKeys(docs).Err? ||
      RecordsForSave(things, data, ThingIdsOf(things, TypeKeys(docs).value), docs, timestamp).Err?)
    ensures r.Ok? ==> |r.value| == |docs|
  {
    match TypeKeys(docs)
    case Err(e) => Err(e)
    case Ok(keys) => RecordsForSave(things, data, ThingIdsOf(things, keys), docs, timestamp)
  }

  /** Every thing row has the data of its latest revision. */
  ghost predicate DataComplete(things: map<string, ThingRow>, data: map<(int, int), Doc>) {
    forall k :: k in things ==> things[k].latestRevision >= 1 && (things[k].id, things[k].latestRevision) in data
  }

  /** The `data` table with the rows inserted in order; a later row replaces an earlier one
      with the same (thing id, revision). */
  function Inserts(m: map<(int, int), Doc>, entries: seq<((int, int), Doc)>): (r: map<(int, int), Doc>)
  {
    if entries == [] then m
    else
      var n := |entries| - 1;
      Inserts(m, entries[..n])[entries[n].0 := entries[n].1]
  }

  /** The inserts add exactly the rows' keys, keep every other row and, when the keys are
      distinct, leave each row as given. */
  lemma InsertsRows(m: map<(int, int), Doc>, entries: seq<((int, int), Doc)>)
    ensures Inserts(m, entries).Keys == m.Keys + Firsts(entries)
    ensures forall k :: k in m && k !in Firsts(entries) ==> Inserts(m, entries)[k] == m[k]
    ensures (forall i, j :: 0 <= i < j < |entries| ==> entries[i].0 != entries[j].0) ==>
      forall i :: 0 <= i < |entries| ==> Inserts(m, entries)[entries[i].0] == entries[i].1
  {
    InsertsKeys(m, entries);
    InsertsKeep(m, entries);
    if forall i, j :: 0 <= i < j < |entries| ==> entries[i].0 != entries[j].0 {
      InsertsDistinct(m, entries);
    }
  }

  /** The first components of one more row. */
  lemma FirstsSnoc(entries: seq<((int, int), Doc)>)
    requires entries != []
    ensures Firsts(entries) == Firsts(entries[..|entries| - 1]) + {entries[|entries| - 1].0}
  {
    var n := |entries| - 1;
    var prefix := entries[..n];
    assert forall i :: 0 <= i < n ==> prefix[i] == entries[i];
  }

  lemma {:induction false} InsertsKeys(m: map<(int, int), Doc>, entries: seq<((int, int), Doc)>)
    ensures Inserts(m, entries).Keys == m.Keys + Firsts(entries)
    decreases |entries|
  {
    if entries != [] {
      InsertsKeys(m, entries[..|entries| - 1]);
      FirstsSnoc(entries);
    }
  }

  lemma {:induction false} InsertsKeep(m: map<(int, int), Doc>, entries: seq<((int, int), Doc)>)
    ensures forall k :: k in m && k !in Firsts(entries) ==> k in Inserts(m, entries) && Inserts(m, entries)[k] == m[k]
    decreases |entries|
  {
    if entries != [] {
      InsertsKeep(m, entries[..|entries| - 1]);
      FirstsSnoc(entries);
    }
  }

  lemma {:induction false} InsertsDistinct(m: map<(int, int), Doc>, entries: seq<((int, int), Doc)>)
    requires forall i, j :: 0 <= i < j < |entries| ==> entries[i].0 != entries[j].0
    ensures forall i :: 0 <= i < |entries| ==> entries[i].0 in Inserts(m, entries) && Inserts(m, entries)[entries[i].0] == entries[i].1
    decreases |entries|
  {
    if entries != [] {
      var n := |entries| - 1;
      var prefix := entries[..n];
      assert forall i :: 0 <= i < n ==> prefix[i] == entries[i];
      InsertsKeys(m, prefix);
      InsertsDistinct(m, prefix);
    }
  }

  /** The (thing id, revision) of each row. */
  function Firsts(entries: seq<((int, int), Doc)>): (ks: set<(int, int)>)
    ensures forall i :: 0 <= i < |entries| ==> entries[i].0 in ks
  {
    set i | 0 <= i < |entries| :: entries[i].0
  }

  /** The `data` rows of the records: (thing id, revision) and the document. */
  function DataRows(out: seq<Record>): (rows: seq<((int, int), Doc)>)
    requires forall i :: 0 <= i < |out| ==> out[i].id.Some?
    ensures |rows| == |out| && forall i :: 0 <= i < |out| ==> rows[i] == ((out[i].id.value, out[i].revision), out[i].data)
  {
    seq(|out|, i requires 0 <= i < |out| => ((out[i].id.value, out[i].revision), out[i].data))
  }

  /** The `version` rows of the records, all in one transaction. */
  function VersionsOf(out: seq<Record>, txId: int): (r: set<Version>)
    requires forall i :: 0 <= i < |out| ==> out[i].id.Some?
    ensures forall i :: 0 <= i < |out| ==> Version(out[i].id.value, out[i].revision, txId) in r
    ensures forall v :: v in r ==> v.transactionId == txId
  {
    set i | 0 <= i < |out| :: Version(out[i].id.value, out[i].revision, txId)
  }

  /** After a save, each record's key reads back as its row with the record's revision, type
      and times, and the record's stamped document. */
  ghost predicate ReadsBack(recs: seq<Record>, things: map<string, ThingRow>, data: map<(int, int), Doc>) {
    forall i :: 0 <= i < |recs| ==>
      Latest(things, data, recs[i].key).Some? &&
      Latest(things, data, recs[i].key).value.1 == recs[i].data &&
      things[recs[i].key] == FinalRow(recs[i], things[recs[i].key].id, recs[i].lastModified)
  }

  /** The updated records have distinct ids, so their data rows have distinct keys. */
  lemma OutIdsDistinct(recs: seq<Record>, out: seq<Record>, before: map<string, ThingRow>, startId: int,
                       after: map<string, ThingRow>, nextId: int)
    requires FromTable(recs, before) && Updated(recs, out, before, startId, after) && IdsFresh(after, nextId)
    ensures forall i :: 0 <= i < |out| ==> out[i].id.Some?
    ensures forall i, j :: 0 <= i < j < |out| ==> DataRows(out)[i].0 != DataRows(out)[j].0
  {
    forall i, j | 0 <= i < j < |out|
      ensures out[i].id != out[j].id
    {
      assert recs[i].key != recs[j].key;
    }
  }

  /** The key and revision of each record, as `save` returns them. */
  function Revisions(out: seq<Record>): (r: seq<(string, int)>)
    ensures |r| == |out| && forall i :: 0 <= i < |out| ==> r[i] == (out[i].key, out[i].revision)
  {
    seq(|out|, i requires 0 <= i < |out| => (out[i].key, out[i].revision))
  }

  /** What a successful save leaves: the key and revision of each record are returned, each
      record reads back, rows of other keys are unchanged, and the versions of the new
      transaction are added. */
  ghost predicate Committed(recs: seq<Record>, result: seq<(string, int)>, before: map<string, ThingRow>,
                            after: map<string, ThingRow>, data: map<(int, int), Doc>,
                            versions0: set<Version>, versions: set<Version>, txId: int) {
    |result| == |recs| &&
    (forall i :: 0 <= i < |recs| ==> result[i] == (recs[i].key, recs[i].revision)) &&
    ReadsBack(recs, after, data) &&
    (forall k :: k in before ==> k in after) &&
    OnlyKeys(before, after, KeysOf(recs)) &&
    (forall i :: 0 <= i < |recs| ==> recs[i].key in after) &&
    versions == versions0 + VersionRows(recs, after, txId)
  }

  /** The `version` row of each record, in the transaction `txId`. */
  function VersionRows(recs: seq<Record>, after: map<string, ThingRow>, txId: int): (r: set<Version>)
    requires forall i :: 0 <= i < |recs| ==> recs[i].key in after
    ensures forall i :: 0 <= i < |recs| ==> Version(after[recs[i].key].id, recs[i].revision, txId) in r
    ensures forall v :: v in r ==> v.transactionId == txId
  {
    set i | 0 <= i < |recs| :: Version(after[recs[i].key].id, recs[i].revision, txId)
  }

  /** Writing the data and version rows of the updated records commits them and keeps every
      row's latest data present. */
  lemma SaveCommits(recs: seq<Record>, out: seq<Record>, before: map<string, ThingRow>, startId: int,
                    after: map<string, ThingRow>, nextId: int, data: map<(int, int), Doc>,
                    versions: set<Version>, txId: int)
    requires recs != [] && FromTable(recs, before) && Updated(recs, out, before, startId, after)
    requires IdsFresh(after, nextId) && DataComplete(before, data)
    ensures forall i :: 0 <= i < |out| ==> out[i].id.Some?
    ensures Committed(recs, Revisions(out), before, after, Inserts(data, DataRows(out)),
      versions, versions + VersionsOf(out, txId), txId)
    ensures DataComplete(after, Inserts(data, DataRows(out)))
  {
    DataCommits(recs, out, before, startId, after, nextId, data);
    VersionsAdded(recs, out, before, startId, after, txId);
  }

  /** The data rows of the updated records make them read back and keep every row's latest
      data present. */
  lemma DataCommits(recs: seq<Record>, out: seq<Record>, before: map<string, ThingRow>, startId: int,
                    after: map<string, ThingRow>, nextId: int, data: map<(int, int), Doc>)
    requires recs != [] && FromTable(recs, before) && Updated(recs, out, before, startId, after)
    requires IdsFresh(after, nextId) && DataComplete(before, data)
    ensures forall i :: 0 <= i < |out| ==> out[i].id.Some?
    ensures ReadsBack(recs, after, Inserts(data, DataRows(out)))
    ensures DataComplete(after, Inserts(data, DataRows(out)))
  {
    OutIdsDistinct(recs, out, before, startId, after, nextId);
    RowsReadBack(recs, out, before, startId, after, data);
    RowsComplete(recs, out, before, startId, after, data);
  }

  /** With distinct ids, each record's data row is the one its row points at. */
  lemma RowsReadBack(recs: seq<Record>, out: seq<Record>, before: map<string, ThingRow>, startId: int,
                     after: map<string, ThingRow>, data: map<(int, int), Doc>)
    requires recs != [] && FromTable(recs, before) && Updated(recs, out, before, startId, after)
    requires forall i :: 0 <= i < |out| ==> out[i].id.Some?
    requires forall i, j :: 0 <= i < j < |out| ==> DataRows(out)[i].0 != DataRows(out)[j].0
    ensures ReadsBack(recs, after, Inserts(data, DataRows(out)))
  {
    var rows := DataRows(out);
    var d := Inserts(data, rows);
    InsertsRows(data, rows);
    forall i | 0 <= i < |recs|
      ensures (after[recs[i].key].id, after[recs[i].key].latestRevision) == rows[i].0
      ensures rows[i].0 in d && d[rows[i].0] == recs[i].data
    {
    }
  }

  /** Every row still has its latest data: the records' rows through the new data rows, the
      others through the old ones. */
  lemma RowsComplete(recs: seq<Record>, out: seq<Record>, before: map<string, ThingRow>, startId: int,
                     after: map<string, ThingRow>, data: map<(int, int), Doc>)
    requires recs != [] && FromTable(recs, before) && Updated(recs, out, before, startId, after)
    requires forall i :: 0 <= i < |out| ==> out[i].id.Some?
    requires DataComplete(before, data)
    ensures DataComplete(after, Inserts(data, DataRows(out)))
  {
    var rows := DataRows(out);
    var d := Inserts(data, rows);
    InsertsRows(data, rows);
    assert forall i :: 0 <= i < |rows| ==> rows[i].0 in d;
    RecordRowsHaveData(recs, out, before, startId, after, rows, d);
    CompleteFromParts(recs, before, after, data, d);
  }

  /** The row of each record ends with the revision its data row was written under. */
  lemma RecordRowsHaveData(recs: seq<Record>, out: seq<Record>, before: map<string, ThingRow>, startId: int,
                           after: map<string, ThingRow>, rows: seq<((int, int), Doc)>, d: map<(int, int), Doc>)
    requires recs != [] && FromTable(recs, before) && Updated(recs, out, before, startId, after)
    requires |rows| == |out| && forall i :: 0 <= i < |out| ==> out[i].id.Some? && rows[i].0 == (out[i].id.value, out[i].revision)
    requires forall i :: 0 <= i < |rows| ==> rows[i].0 in d
    ensures forall i :: 0 <= i < |recs| ==>
      recs[i].key in after && after[recs[i].key].latestRevision >= 1 &&
      (after[recs[i].key].id, after[recs[i].key].latestRevision) in d
  {
    forall i | 0 <= i < |recs|
      ensures recs[i].key in after && after[recs[i].key].latestRevision >= 1
      ensures (after[recs[i].key].id, after[recs[i].key].latestRevision) in d
    {
      assert recs[i] in recs;
      assert (after[recs[i].key].id, after[recs[i].key].latestRevision) == rows[i].0;
    }
  }

  /** Rows kept from before have their data kept, and every record's row has its data. */
  lemma CompleteFromParts(recs: seq<Record>, before: map<string, ThingRow>, after: map<string, ThingRow>,
                          data: map<(int, int), Doc>, d: map<(int, int), Doc>)
    requires DataComplete(before, data) && data.Keys <= d.Keys
    requires OnlyKeys(before, after, KeysOf(recs))
    requires forall k :: k in after ==> k in before || k in KeysOf(recs)
    requires forall i :: 0 <= i < |recs| ==>
      recs[i].key in after && after[recs[i].key].latestRevision >= 1 &&
      (after[recs[i].key].id, after[recs[i].key].latestRevision) in d
    ensures DataComplete(after, d)
  {
    forall k | k in after
      ensures after[k].latestRevision >= 1 && (after[k].id, after[k].latestRevision) in d
    {
      if k in KeysOf(recs) {
        var r :| r in recs && r.key == k;
        var i :| 0 <= i < |recs| && recs[i] == r;
      } else {
        assert k in before && after[k] == before[k];
      }
    }
  }

  /** The version rows and the returned revisions are those of the records. */
  lemma VersionsAdded(recs: seq<Record>, out: seq<Record>, before: map<string, ThingRow>, startId: int,
                      after: map<string, ThingRow>, txId: int)
    requires recs != [] && Updated(recs, out, before, startId, after)
    ensures forall i :: 0 <= i < |out| ==> out[i].id.Some?
    ensures forall i :: 0 <= i < |recs| ==> Revisions(out)[i] == (recs[i].key, recs[i].revision)
    ensures VersionsOf(out, txId) == VersionRows(recs, after, txId)
  {
    forall i | 0 <= i < |recs|
      ensures Version(out[i].id.value, out[i].revision, txId) == Version(after[recs[i].key].id, recs[i].revision, txId)
    {
    }
    var a, b := VersionsOf(out, txId), VersionRows(recs, after, txId);
    forall v | v in b ensures v in a {
      var i :| 0 <= i < |recs| && v == Version(after[recs[i].key].id, recs[i].revision, txId);
    }
  }

  class SaveImpl {
    /** The `thing` table by key. */
    var things: map<string, ThingRow>
    var nextThingId: int
    /** The `data` table: the document of each (thing id, revision). */
    var data: map<(int, int), Doc>
    var versions: set<Version>
    var transactions: seq<Transaction>
    var nextTxId: int
    /** `self.thing_ids`: the ids `get_thing_ids` has found. */
    var thingIds: map<string, int>

    /** Thing ids are distinct and below the next one, creation times are real datetimes, and
        the memo agrees with the table. */
    ghost predicate TableValid()
      reads this
    {
      IdsFresh(things, nextThingId) && MemoAgrees(thingIds, things) && TimesValid(things)
    }

    /** Between saves, every thing row also has the data of its latest revision. */
    ghost predicate Valid()
      reads this
    {
      TableValid() && DataComplete(things, data)
    }

    constructor ()
      ensures Valid() && things == map[] && data == map[] && versions == {} && transactions == [] && thingIds == map[]
    {
      things := map[];
      nextThingId := 1;
      data := map[];
      versions := {};
      transactions := [];
      nextTxId := 1;
      thingIds := map[];
    }

    /** `get_thing_ids(keys)`: the id of each key that names a thing, from the memo or the
        table; the ones found in the table are memoised. The memo never changes the answer. */
    method GetThingIds(keys: seq<string>) returns (r: map<string, int>)
      requires Valid()
      modifies this`thingIds
      ensures Valid()
      ensures r == ThingIdsOf(things, keys)
      ensures forall k :: k in thingIds <==> k in old(thingIds) || k in r
    {
      r := map[];
      var memo := thingIds;
      var i := 0;
      while i < |keys|
        invariant 0 <= i <= |keys|
        invariant MemoAgrees(memo, things)
        invariant forall k :: k in r <==> k in keys[..i] && k in things
        invariant forall k :: k in r ==> r[k] == things[k].id
        invariant forall k :: k in memo <==> k in thingIds || k in r
      {
        var k := keys[i];
        if k in memo {
          r := r[k := memo[k]];
        } else if k in things {
          r := r[k := things[k].id];
          memo := memo[k := things[k].id];
        }
        assert keys[..i + 1] == keys[..i] + [k];
        i := i + 1;
      }
      thingIds := memo;
      assert keys[..i] == keys;
      IdsOfKeys(r, things, keys);
    }

    /** `save(docs, timestamp, comment, ip, author, action)`: the documents are saved in one
        transaction, each as the next revision of its key, and each key's revision is returned
        in order. On any error the transaction is rolled back and no table changes (only the
        memo of type ids may have grown). */
    method Save(docs: seq<Doc>, timestamp: Timestamp, comment: string, ip: string, author: Option<int>, action: string)
      returns (r: Result<seq<(string, int)>, Error>)
      requires Valid()
      modifies this
      ensures Valid()
      ensures r.Err? <==> (PlannedRecords(old(things), old(data), docs, timestamp).Err? || docs == [] ||
        !DistinctKeys(PlannedRecords(old(things), old(data), docs, timestamp).value))
      ensures r.Err? ==> (things == old(things) && nextThingId == old(nextThingId) && data == old(data) &&
        versions == old(versions) && transactions == old(transactions) && nextTxId == old(nextTxId))
      ensures r.Ok? ==>
        Committed(PlannedRecords(old(things), old(data), docs, timestamp).value, r.value, old(things), things, data,
          old(versions), versions, old(nextTxId)) &&
        transactions == old(transactions) + [Transaction(old(nextTxId), action, author, ip, comment, timestamp)] &&
        nextTxId == old(nextTxId) + 1
    {
      var records := PlanRecords(docs, timestamp);
      if records.Err? {
        return Err(records.error);
      }
      r := Commit(records.value, timestamp, comment, ip, author, action);
    }

    /** The records of `_get_records_for_save`, with the duplicate keys the `thing` table
        refuses reported before anything is written. Only the memo of type ids changes. */
    method PlanRecords(docs: seq<Doc>, timestamp: Timestamp) returns (r: Result<seq<Record>, Error>)
      requires Valid()
      modifies this
      ensures Valid()
      ensures r.Err? <==> (PlannedRecords(things, data, docs, timestamp).Err? ||
        !DistinctKeys(PlannedRecords(things, data, docs, timestamp).value))
      ensures r.Ok? ==> r.value == PlannedRecords(things, data, docs, timestamp).value && FromTable(r.value, things)
      ensures things == old(things) && nextThingId == old(nextThingId) && data == old(data) &&
        versions == old(versions) && transactions == old(transactions) && nextTxId == old(nextTxId)
    {
      var typeKeys := TypeKeys(docs);
      if typeKeys.Err? {
        return Err(typeKeys.error);
      }
      var typeIds := GetThingIds(typeKeys.value);
      var planned := RecordsForSave(things, data, typeIds, docs, timestamp);
      if planned.Err? {
        return Err(planned.error);
      }
      if !DistinctKeys(planned.value) {
        return Err(IntegrityError);
      }
      RecordsAreFromTable(things, data, typeIds, docs, timestamp);
      r := planned;
    }

    /** The writes of `save` once the records are built: the `thing` table, then the
        transaction, its versions and the data rows. */
    method Commit(records: seq<Record>, timestamp: Timestamp, comment: string, ip: string, author: Option<int>, action: string)
      returns (r: Result<seq<(string, int)>, Error>)
      requires Valid() && FromTable(records, things)
      modifies this
      ensures Valid()
      ensures r.Err? <==> records == []
      ensures r.Err? ==> (things == old(things) && nextThingId == old(nextThingId) && data == old(data) &&
        versions == old(versions) && transactions == old(transactions) && nextTxId == old(nextTxId))
      ensures r.Ok? ==>
        Committed(records, r.value, old(things), things, data, old(versions), versions, old(nextTxId)) &&
        transactions == old(transactions) + [Transaction(old(nextTxId), action, author, ip, comment, timestamp)] &&
        nextTxId == old(nextTxId) + 1
    {
      ghost var before, startId := things, nextThingId;
      var updated := UpdateThingTable(records);
      if updated.Err? {
        return Err(updated.error);
      }
      var out := updated.value;
      SaveCommits(records, out, before, startId, things, nextThingId, data, versions, nextTxId);
      WriteTransaction(out, timestamp, comment, ip, author, action);
      r := Ok(Revisions(out));
    }

    /** The inserts of `save` after the `thing` table is updated: the transaction row, then a
        version and a data row per record. */
    method WriteTransaction(out: seq<Record>, timestamp: Timestamp, comment: string, ip: string, author: Option<int>, action: string)
      requires forall i :: 0 <= i < |out| ==> out[i].id.Some?
      modifies this
      ensures transactions == old(transactions) + [Transaction(old(nextTxId), action, author, ip, comment, timestamp)]
      ensures nextTxId == old(nextTxId) + 1
      ensures versions == old(versions) + VersionsOf(out, old(nextTxId))
      ensures data == Inserts(old(data), DataRows(out))
      ensures things == old(things) && nextThingId == old(nextThingId) && thingIds == old(thingIds)
    {
      var txId := nextTxId;
      var newData: map<(int, int), Doc> := Inserts(data, DataRows(out));
      transactions, nextTxId := transactions + [Transaction(txId, action, author, ip, comment, timestamp)], nextTxId + 1;
      versions, data := versions + VersionsOf(out, txId), newData;
    }

    /** `_update_thing_table(records)`: new records (revision 1) get rows with fresh ids, records
        whose type changed get their revision and type written, and the rest have their latest
        revision incremented; every record's row then holds its revision, type and the save's
        timestamp, and no other row changes. An empty list has no first record. */
    method UpdateThingTable(records: seq<Record>) returns (r: Result<seq<Record>, Error>)
      requires TableValid() && FromTable(records, things)
      modifies this
      ensures TableValid()
      ensures records == [] ==> r == Err(IndexError) && things == old(things) && nextThingId == old(nextThingId)
      ensures records != [] ==> r.Ok? && Updated(records, r.value, old(things), old(nextThingId), things)
      ensures data == old(data) && versions == old(versions) && transactions == old(transactions) && nextTxId == old(nextTxId)
    {
      if records == [] {
        return Err(IndexError);
      }
      var timestamp := records[0].lastModified;
      ghost var before, startId := things, nextThingId;
      forall j | 0 <= j < |records|
        ensures records[j].revision == 1 ==> records[j].key !in things
      {
        assert records[j] in records;
      }
      var newIds := InsertNew(records);
      var out := WithIds(records, newIds);
      ghost var inserted := things;
      OutIds(records, before, startId, inserted, nextThingId, newIds);
      ChangeTypes(out, timestamp);
      ghost var changed := things;
      IdsFreshKept(inserted, changed, nextThingId);
      BumpRest(out, timestamp);
      UpdateRows(records, before, startId, inserted, nextThingId, newIds, changed, things);
      IdsFreshKept(inserted, things, nextThingId);
      UpdateKeepsValid(thingIds, before, startId, records, inserted, nextThingId, newIds, things);
      r := Ok(out);
    }

    /** The insert of `_update_thing_table`: a row with a fresh id for each new record; the ids
        are returned by key. */
    method InsertNew(records: seq<Record>) returns (newIds: map<string, int>)
      requires IdsFresh(things, nextThingId) && DistinctKeys(records)
      requires forall j :: 0 <= j < |records| && records[j].revision == 1 ==> records[j].key !in things
      modifies this
      ensures Inserted(records, |records|, old(things), old(nextThingId), things, nextThingId, newIds)
      ensures thingIds == old(thingIds) && data == old(data) && versions == old(versions) &&
        transactions == old(transactions) && nextTxId == old(nextTxId)
    {
      newIds := map[];
      var table, nextId := things, nextThingId;
      ghost var before, start := things, nextThingId;
      var i := 0;
      while i < |records|
        invariant Inserted(records, i, before, start, table, nextId, newIds)
        invariant thingIds == old(thingIds) && data == old(data) && versions == old(versions) &&
          transactions == old(transactions) && nextTxId == old(nextTxId)
      {
        var rec := records[i];
        InsertStep(records, i, before, start, table, nextId, newIds);
        if rec.revision == 1 {
          table := table[rec.key := ThingRow(nextId, rec.typ, 1, rec.created, rec.lastModified)];
          newIds := newIds[rec.key := nextId];
          nextId := nextId + 1;
        }
        i := i + 1;
      }
      things, nextThingId := table, nextId;
    }

    /** The updates of `_update_thing_table` for records whose type changed (a new record's
        missing type counts as a change): revision, type and modification time are written. */
    method ChangeTypes(out: seq<Record>, timestamp: DateTime)
      requires DistinctKeys(out) && forall j :: 0 <= j < |out| ==> out[j].key in things
      modifies this
      ensures TypesChanged(old(things), things, out, timestamp)
      ensures nextThingId == old(nextThingId) && thingIds == old(thingIds) && data == old(data) && versions == old(versions) &&
        transactions == old(transactions) && nextTxId == old(nextTxId)
    {
      var table := things;
      ghost var before := things;
      var i := 0;
      while i < |out|
        invariant 0 <= i <= |out|
        invariant forall k :: k in table <==> k in before
        invariant forall k :: k in before ==> table[k].id == before[k].id && table[k].created == before[k].created
        invariant forall j :: 0 <= j < |out| ==>
          table[out[j].key] == (if j < i then TypeChanged(before[out[j].key], out[j], timestamp) else before[out[j].key])
        invariant forall k :: k in before && table[k] != before[k] ==> exists j :: 0 <= j < i && out[j].key == k
      {
        var rec := out[i];
        table := table[rec.key := TypeChanged(table[rec.key], rec, timestamp)];
        i := i + 1;
      }
      forall k | k in before && table[k] != before[k]
        ensures k in KeysOf(out)
      {
        var j :| 0 <= j < i && out[j].key == k;
      }
      things := table;
    }

    /** The batch update of `_update_thing_table` for the rest (same type, revision above 1):
        one statement over their ids raises the latest revision by one. */
    method BumpRest(out: seq<Record>, timestamp: DateTime)
      requires IdsFresh(things, nextThingId) && DistinctKeys(out)
      requires forall j :: 0 <= j < |out| ==> out[j].key in things && out[j].id == Some(things[out[j].key].id)
      modifies this
      ensures RestBumped(old(things), things, out, timestamp)
      ensures nextThingId == old(nextThingId) && thingIds == old(thingIds) && data == old(data) && versions == old(versions) &&
        transactions == old(transactions) && nextTxId == old(nextTxId)
    {
      var rest := RestIds(out);
      BumpRows(things, nextThingId, out, timestamp);
      if rest != {} {
        things := Bump(things, rest, timestamp);
      }
    }
  }
}
