/** The recent-changes reader of the Infobase store (infogami/infobase/_dbstore/read.py): the
    `thing`, `version` and `transaction` tables are sequences of rows, and the reader turns
    transaction rows into change records. */
module DbRead {
  import opened Wrappers
  import opened Json
  import opened Dates
  import opened Strings
  import DbSave

  /** `KeyError` for an author id with no thing row, `NameError` for the undefined
      `simplejson`, `DecodeError` for text that is not JSON. */
  datatype Error = KeyError | NameError | DecodeError

  /** A row of the `thing` table, as far as the reader uses it. */
  datatype ThingRow = ThingRow(id: int, key: string)

  /** A row of the `transaction` table. `data` is None when the table has no data column;
      `machineComment` is None when it has no machine_comment column or the value is NULL. */
  datatype TxRow = TxRow(id: int, action: string, created: DateTime, comment: string, authorId: Option<int>,
                         ip: Option<string>, data: Option<string>, machineComment: Option<string>)

  /** One `{"key": ..., "revision": ...}` entry of a change. */
  datatype Change = Change(key: string, revision: int)

  /** What `_process_transaction` builds, before it is written out as a dictionary by
      `RecordJson`. */
  datatype ChangeRecord = ChangeRecord(id: int, kind: string, created: DateTime, comment: string,
                                       changes: seq<Change>, author: Option<string>, ip: Option<string>, data: Value)

  /** What `recentchanges` returns: `{}` for an unknown author, otherwise the list of changes. */
  datatype Recent = UnknownAuthor | Changes(records: seq<ChangeRecord>)

  /** The tables the reader queries. `transactions` is in `created DESC` order, the order the
      query asks for. */
  datatype Tables = Tables(things: seq<ThingRow>, versions: seq<DbSave.Version>, transactions: seq<TxRow>)

  /** Python truthiness of an optional id: None and 0 are false. */
  predicate HasAuthor(authorId: Option<int>) {
    authorId.Some? && authorId.value != 0
  }

  /** The ids of the thing rows. */
  function ThingIds(things: seq<ThingRow>): (ids: set<int>)
    ensures forall i :: 0 <= i < |things| ==> things[i].id in ids
    ensures forall id :: id in ids ==> exists i :: 0 <= i < |things| && things[i].id == id
  {
    set i | 0 <= i < |things| :: things[i].id
  }

  /** `get_keys(ids)`: the key of each given id that names a thing; `{}` for no ids. */
  function GetKeys(things: seq<ThingRow>, ids: seq<int>): (r: map<int, string>)
    ensures ids == [] ==> r == map[]
    ensures forall id :: id in r <==> id in ids && id in ThingIds(things)
    ensures forall id :: id in r ==> ThingRow(id, r[id]) in things
  {
    if ids == [] then map[] else KeysById(things, ids)
  }

  /** `dict((row.id, row.key) for row in rows)` over the rows whose id is wanted; a later row
      replaces an earlier one. */
  function KeysById(things: seq<ThingRow>, ids: seq<int>): (r: map<int, string>)
    ensures forall id :: id in r <==> id in ids && id in ThingIds(things)
    ensures forall id :: id in r ==> ThingRow(id, r[id]) in things
  {
    if things == [] then map[]
    else
      var n := |things| - 1;
      var m := KeysById(things[..n], ids);
      assert forall id :: id in ThingIds(things) <==> id in ThingIds(things[..n]) || id == things[n].id by {
        assert things == things[..n] + [things[n]];
      }
      if things[n].id in ids then m[things[n].id := things[n].key] else m
  }

  /** `get_thing_id(key)`: the id of the first row with the key, None when there is none. */
  function GetThingId(things: seq<ThingRow>, key: string): (r: Option<int>)
    ensures r.None? <==> forall i :: 0 <= i < |things| ==> things[i].key != key
    ensures r.Some? ==> ThingRow(r.value, key) in things
  {
    if things == [] then None
    else if things[0].key == key then Some(things[0].id)
    else GetThingId(things[1..], key)
  }

  /** The transaction rows the select returns: those of the author when one is given, from
      `offset` on, at most `limit` of them. */
  function SelectTransactions(txs: seq<TxRow>, authorId: Option<int>, limit: nat, offset: nat): (rows: seq<TxRow>)
  {
    var matching := OfAuthor(txs, authorId);
    var rest := if offset <= |matching| then matching[offset..] else [];
    if limit <= |rest| then rest[..limit] else rest
  }

  /** The rows with the given author id, in order; all rows when there is no author filter. */
  function OfAuthor(txs: seq<TxRow>, authorId: Option<int>): (rows: seq<TxRow>)
    ensures authorId.None? ==> rows == txs
    ensures authorId.Some? ==> forall i :: 0 <= i < |rows| ==> rows[i].authorId == authorId
    ensures forall i :: 0 <= i < |rows| ==> rows[i] in txs
    ensures |rows| <= |txs|
  {
    if txs == [] then []
    else if authorId.None? || txs[0].authorId == authorId then [txs[0]] + OfAuthor(txs[1..], authorId)
    else OfAuthor(txs[1..], authorId)
  }

  /** The select gives the requested window of the matching rows. */
  lemma SelectWindow(txs: seq<TxRow>, authorId: Option<int>, limit: nat, offset: nat)
    ensures var rows := SelectTransactions(txs, authorId, limit, offset);
      var matching := OfAuthor(txs, authorId);
      |rows| == (if offset >= |matching| then 0 else if |matching| - offset < limit then |matching| - offset else limit) &&
      forall i :: 0 <= i < |rows| ==> rows[i] == matching[offset + i]
  {
  }

  /** The distinct truthy author ids of the rows, in order. */
  function AuthorIds(rows: seq<TxRow>): (ids: seq<int>)
    ensures forall i :: 0 <= i < |rows| && HasAuthor(rows[i].authorId) ==> rows[i].authorId.value in ids
    ensures forall id :: id in ids ==> exists i :: 0 <= i < |rows| && rows[i].authorId == Some(id) && id != 0
  {
    if rows == [] then []
    else
      var rest := AuthorIds(rows[1..]);
      assert forall i :: 1 <= i < |rows| ==> rows[i] == rows[1..][i - 1];
      if HasAuthor(rows[0].authorId) && rows[0].authorId.value !in rest then [rows[0].authorId.value] + rest else rest
  }

  /** The transaction ids of the rows. */
  function TxIds(rows: seq<TxRow>): (ids: seq<int>)
    ensures |ids| == |rows| && forall i :: 0 <= i < |rows| ==> ids[i] == rows[i].id
  {
    seq(|rows|, i requires 0 <= i < |rows| => rows[i].id)
  }

  /** The (transaction id, change) rows of the version query as written: the `transaction`
      table is joined without a condition, so every transaction row is paired with every
      version of the requested transactions. */
  function VersionQueryAsWritten(t: Tables, txIds: seq<int>): seq<(int, Change)>
    decreases |t.transactions|
  {
    if t.transactions == [] then []
    else
      Tag(t.transactions[0].id, ChangesOfVersions(t.things, t.versions, txIds))
      + VersionQueryAsWritten(t.(transactions := t.transactions[1..]), txIds)
  }

  /** The version query with the join on `version.transaction_id`: each version of a requested
      transaction with the key of its thing. */
  function VersionQuery(t: Tables, txIds: seq<int>): (rows: seq<(int, Change)>)
    ensures forall i :: 0 <= i < |rows| ==> rows[i].0 in txIds
    decreases |t.versions|
  {
    if t.versions == [] then []
    else
      var v := t.versions[0];
      (if v.transactionId in txIds then Tag(v.transactionId, KeysOfThing(t.things, v.thingId, v.revision)) else [])
      + VersionQuery(t.(versions := t.versions[1..]), txIds)
  }

  /** The changes of the versions of the requested transactions. */
  function ChangesOfVersions(things: seq<ThingRow>, versions: seq<DbSave.Version>, txIds: seq<int>): seq<Change> {
    if versions == [] then []
    else
      var v := versions[0];
      (if v.transactionId in txIds then KeysOfThing(things, v.thingId, v.revision) else [])
      + ChangesOfVersions(things, versions[1..], txIds)
  }

  /** The changes for one version: one per thing row with its id. */
  function KeysOfThing(things: seq<ThingRow>, thingId: int, revision: int): seq<Change> {
    if things == [] then []
    else (if things[0].id == thingId then [Change(things[0].key, revision)] else []) + KeysOfThing(things[1..], thingId, revision)
  }

  function Tag(id: int, changes: seq<Change>): (rows: seq<(int, Change)>)
    ensures |rows| == |changes| && forall i :: 0 <= i < |rows| ==> rows[i] == (id, changes[i])
  {
    seq(|changes|, i requires 0 <= i < |changes| => (id, changes[i]))
  }

  /** The changes the rows list for one transaction id, in row order. */
  function ChangesOf(rows: seq<(int, Change)>, id: int): (changes: seq<Change>)
    ensures |changes| <= |rows|
  {
    if rows == [] then []
    else
      var n := |rows| - 1;
      ChangesOf(rows[..n], id) + (if rows[n].0 == id then [rows[n].1] else [])
  }

  /** `versions[tx_id]` on the defaultdict: the grouped list, or `[]` for an id with none. */
  function Lookup(d: map<int, seq<Change>>, id: int): seq<Change> {
    if id in d then d[id] else []
  }

  /** The grouping loop of `get_versions`: each id maps to its rows' changes in row order,
      and only ids with rows are present. */
  method GroupVersions(rows: seq<(int, Change)>) returns (d: map<int, seq<Change>>)
    ensures forall id :: Lookup(d, id) == ChangesOf(rows, id)
    ensures forall id :: id in d ==> d[id] != []
  {
    d := map[];
    var i := 0;
    while i < |rows|
      invariant 0 <= i <= |rows|
      invariant forall id :: Lookup(d, id) == ChangesOf(rows[..i], id)
      invariant forall id :: id in d ==> d[id] != []
    {
      var d' := d[rows[i].0 := Lookup(d, rows[i].0) + [rows[i].1]];
      GroupStep(rows, i, i + 1, d, d');
      d := d';
      i := i + 1;
    }
    assert rows[..i] == rows;
  }

  /** Adding one more row to its id's list keeps the grouping right. */
  lemma GroupStep(rows: seq<(int, Change)>, i: int, j: int, d: map<int, seq<Change>>, d': map<int, seq<Change>>)
    requires 0 <= i < |rows| && j == i + 1
    requires forall id :: Lookup(d, id) == ChangesOf(rows[..i], id)
    requires d' == d[rows[i].0 := Lookup(d, rows[i].0) + [rows[i].1]]
    ensures forall id :: Lookup(d', id) == ChangesOf(rows[..j], id)
  {
    assert rows[..j][..i] == rows[..i];
  }

  /** A transaction's changes are exactly its versions with their keys, in version order. */
  lemma {:induction false} ChangesOfQuery(t: Tables, txIds: seq<int>, id: int)
    requires id in txIds
    ensures ChangesOf(VersionQuery(t, txIds), id) == ChangesOfVersions(t.things, t.versions, [id])
    decreases |t.versions|
  {
    if t.versions != [] {
      var v := t.versions[0];
      var rest := t.(versions := t.versions[1..]);
      ChangesOfQuery(rest, txIds, id);
      var head := if v.transactionId in txIds then Tag(v.transactionId, KeysOfThing(t.things, v.thingId, v.revision)) else [];
      ChangesOfAppend(head, VersionQuery(rest, txIds), id);
      TagChanges(v.transactionId, KeysOfThing(t.things, v.thingId, v.revision), id);
    }
  }

  /** `ChangesOf` of a concatenation. */
  lemma {:induction false} ChangesOfAppend(a: seq<(int, Change)>, b: seq<(int, Change)>, id: int)
    ensures ChangesOf(a + b, id) == ChangesOf(a, id) + ChangesOf(b, id)
    decreases |b|
  {
    if b == [] {
      assert a + b == a;
    } else {
      var n := |b| - 1;
      ChangesOfAppend(a, b[..n], id);
      assert (a + b)[..|a| + n] == a + b[..n];
    }
  }

  /** `ChangesOf` of rows all tagged with one id. */
  lemma {:induction false} TagChanges(tag: int, changes: seq<Change>, id: int)
    ensures ChangesOf(Tag(tag, changes), id) == if tag == id then changes else []
    decreases |changes|
  {
    if changes != [] {
      var n := |changes| - 1;
      TagChanges(tag, changes[..n], id);
      assert Tag(tag, changes)[..n] == Tag(tag, changes[..n]);
    }
  }

  /** The data of a change record as written: the data column or a machine comment starting
      with "{" is handed to `simplejson`, which read.py never imports. */
  function DataAsWritten(tx: TxRow): (r: Result<Value, Error>)
  {
    if tx.data.Some? then Err(NameError)
    else if tx.machineComment.Some? && StartsWith(tx.machineComment.value, "{") then Err(NameError)
    else Ok(Dict([]))
  }

  /** The data of a change record: the decoded data column, else the decoded machine comment
      when it starts with "{", else `{}`. `loads` is the JSON decoder. */
  function Data(tx: TxRow, loads: string -> Result<Value, Error>): (r: Result<Value, Error>)
    ensures tx.data.Some? ==> r == loads(tx.data.value)
    ensures tx.data.None? && tx.machineComment.Some? && StartsWith(tx.machineComment.value, "{") ==>
      r == loads(tx.machineComment.value)
    ensures tx.data.None? && (tx.machineComment.None? || !StartsWith(tx.machineComment.value, "{")) ==>
      r == Ok(Dict([]))
  {
    if tx.data.Some? then loads(tx.data.value)
    else if tx.machineComment.Some? && StartsWith(tx.machineComment.value, "{") then loads(tx.machineComment.value)
    else Ok(Dict([]))
  }

  /** `_process_transaction(tx, authors, versions)` with the data rule given as `data`. */
  function Process(tx: TxRow, authors: map<int, string>, versions: map<int, seq<Change>>, data: Result<Value, Error>): (r: Result<ChangeRecord, Error>)
  {
    if HasAuthor(tx.authorId) && tx.authorId.value !in authors then Err(KeyError)
    else if data.Err? then Err(data.error)
    else
      var author := if HasAuthor(tx.authorId) then Some(authors[tx.authorId.value]) else None;
      var ip := if HasAuthor(tx.authorId) then None else tx.ip;
      Ok(ChangeRecord(tx.id, tx.action, tx.created, tx.comment, Lookup(versions, tx.id), author, ip, data.value))
  }

  /** The dictionary of a change record, in the order `_process_transaction` fills it: the
      timestamp is the creation time in ISO format, an author is `{"key": key}`. */
  function RecordJson(r: ChangeRecord): Value
    requires ValidDateTime(r.created)
  {
    Dict([("id", Int(r.id)), ("kind", Str(r.kind)), ("timestamp", Str(IsoFormat(r.created))),
          ("comment", Str(r.comment)), ("changes", List(ChangesJson(r.changes))),
          ("author", if r.author.Some? then Dict([("key", Str(r.author.value))]) else Null),
          ("ip", if r.ip.Some? then Str(r.ip.value) else Null), ("data", r.data)])
  }

  /** Each change as `{"key": key, "revision": revision}`. */
  function ChangesJson(changes: seq<Change>): (vs: seq<Value>)
    ensures |vs| == |changes|
    ensures forall i :: 0 <= i < |changes| ==>
      vs[i] == Dict([("key", Str(changes[i].key)), ("revision", Int(changes[i].revision))])
  {
    seq(|changes|, i requires 0 <= i < |changes| => Dict([("key", Str(changes[i].key)), ("revision", Int(changes[i].revision))]))
  }

  function ProcessTransactionAsWritten(tx: TxRow, authors: map<int, string>, versions: map<int, seq<Change>>): (r: Result<ChangeRecord, Error>)
  {
    Process(tx, authors, versions, DataAsWritten(tx))
  }

  /** `_process_transaction` with `simplejson` imported. */
  function ProcessTransaction(tx: TxRow, authors: map<int, string>, versions: map<int, seq<Change>>,
                              loads: string -> Result<Value, Error>): (r: Result<ChangeRecord, Error>)
  {
    Process(tx, authors, versions, Data(tx, loads))
  }

  /** A change record names the author and hides the ip when the transaction has an author,
      and otherwise has no author and the transaction's ip; it fails only for an author with
      no key or data that does not decode. */
  lemma ProcessFields(tx: TxRow, authors: map<int, string>, versions: map<int, seq<Change>>,
                      loads: string -> Result<Value, Error>)
    ensures var r := ProcessTransaction(tx, authors, versions, loads);
      (r.Err? <==> (HasAuthor(tx.authorId) && tx.authorId.value !in authors) || Data(tx, loads).Err?) &&
      (r.Ok? ==>
        r.value.id == tx.id && r.value.kind == tx.action && r.value.comment == tx.comment &&
        r.value.created == tx.created &&
        r.value.changes == Lookup(versions, tx.id) && r.value.data == Data(tx, loads).value &&
        (HasAuthor(tx.authorId) ==> r.value.author == Some(authors[tx.authorId.value]) && r.value.ip == None) &&
        (!HasAuthor(tx.authorId) ==> r.value.author == None && r.value.ip == tx.ip))
  {
  }

  /** As written, a transaction with a data column, or with a machine comment starting with
      "{", cannot be shown: the decoder is not defined. */
  lemma ProcessTransactionAsWrittenFails(tx: TxRow, authors: map<int, string>, versions: map<int, seq<Change>>)
    requires !HasAuthor(tx.authorId) && tx.data.Some?
    ensures ProcessTransactionAsWritten(tx, authors, versions) == Err(NameError)
    ensures ProcessTransaction(tx, authors, versions, s => Ok(Str(s))).Ok?
  {
  }

  /** `recentchanges(author, limit, offset)`: `{}` for a given author with no thing id;
      otherwise the selected transactions, each with its author's key and its changes. */
  function RecentChanges(t: Tables, author: Option<string>, limit: nat, offset: nat,
                         loads: string -> Result<Value, Error>): (r: Result<Recent, Error>)
  {
    var authorId := if author.Some? && author.value != "" then GetThingId(t.things, author.value) else None;
    if author.Some? && author.value != "" && !HasAuthor(authorId) then Ok(UnknownAuthor)
    else
      var rows := SelectTransactions(t.transactions, authorId, limit, offset);
      assert forall i :: 0 <= i < |rows| ==> rows[i] in t.transactions;
      var authors := GetKeys(t.things, AuthorIds(rows));
      var versions := Grouped(VersionQuery(t, TxIds(rows)));
      match ProcessAll(rows, authors, versions, loads)
      case Ok(records) => Ok(Changes(records))
      case Err(e) => Err(e)
  }

  /** The defaultdict `get_versions` fills, as a value. */
  function Grouped(rows: seq<(int, Change)>): (d: map<int, seq<Change>>)
    ensures forall id :: Lookup(d, id) == ChangesOf(rows, id)
  {
    if rows == [] then map[]
    else
      var n := |rows| - 1;
      var d := Grouped(rows[..n]);
      d[rows[n].0 := Lookup(d, rows[n].0) + [rows[n].1]]
  }

  /** The list comprehension over the selected rows; the first failure is raised. */
  function ProcessAll(rows: seq<TxRow>, authors: map<int, string>, versions: map<int, seq<Change>>,
                      loads: string -> Result<Value, Error>): (r: Result<seq<ChangeRecord>, Error>)
    ensures r.Ok? <==> forall i :: 0 <= i < |rows| ==> ProcessTransaction(rows[i], authors, versions, loads).Ok?
    ensures r.Ok? ==> (|r.value| == |rows| &&
      forall i :: 0 <= i < |rows| ==> ProcessTransaction(rows[i], authors, versions, loads) == Ok(r.value[i]))
  {
    if rows == [] then Ok([])
    else
      var first := ProcessTransaction(rows[0], authors, versions, loads);
      var rest := ProcessAll(rows[1..], authors, versions, loads);
      assert forall i :: 1 <= i < |rows| ==> rows[i] == rows[1..][i - 1];
      if first.Err? then Err(first.error)
      else if rest.Err? then Err(rest.error)
      else Ok([first.value] + rest.value)
  }


  /** A given author that names no thing gives `{}`, whatever the tables hold. */
  lemma UnknownAuthorIsEmpty(t: Tables, author: string, limit: nat, offset: nat, loads: string -> Result<Value, Error>)
    requires author != [] && forall i :: 0 <= i < |t.things| ==> t.things[i].key != author
    ensures RecentChanges(t, Some(author), limit, offset, loads) == Ok(UnknownAuthor)
  {
  }

  /** When every author id names a thing and every data value decodes, the recent changes are
      the selected rows, each with its own changes. */
  lemma RecentChangesShowsRows(t: Tables, limit: nat, offset: nat, loads: string -> Result<Value, Error>)
    requires forall i :: 0 <= i < |t.transactions| && HasAuthor(t.transactions[i].authorId) ==>
      t.transactions[i].authorId.value in ThingIds(t.things)
    requires forall i :: 0 <= i < |t.transactions| ==> Data(t.transactions[i], loads).Ok?
    ensures var r := RecentChanges(t, None, limit, offset, loads);
      var rows := SelectTransactions(t.transactions, None, limit, offset);
      r.Ok? && r.value.Changes? && |r.value.records| == |rows| &&
      forall i :: 0 <= i < |rows| ==>
        r.value.records[i].id == rows[i].id &&
        r.value.records[i].changes == ChangesOfVersions(t.things, t.versions, [rows[i].id])
  {
    var rows := SelectTransactions(t.transactions, None, limit, offset);
    var authors := GetKeys(t.things, AuthorIds(rows));
    var versions := Grouped(VersionQuery(t, TxIds(rows)));
    RowsShow(t, rows, loads);
    RecordsOfRows(t, rows, authors, versions, loads);
  }

  /** When every row is processed with its own changes, so are all of them together. */
  lemma RecordsOfRows(t: Tables, rows: seq<TxRow>, authors: map<int, string>, versions: map<int, seq<Change>>,
                      loads: string -> Result<Value, Error>)
    requires forall i :: 0 <= i < |rows| ==>
      ProcessTransaction(rows[i], authors, versions, loads).Ok? &&
      ProcessTransaction(rows[i], authors, versions, loads).value.changes == ChangesOfVersions(t.things, t.versions, [rows[i].id])
    ensures var p := ProcessAll(rows, authors, versions, loads);
      p.Ok? && |p.value| == |rows| &&
      forall i :: 0 <= i < |rows| ==>
        p.value[i].id == rows[i].id && p.value[i].changes == ChangesOfVersions(t.things, t.versions, [rows[i].id])
  {
    var p := ProcessAll(rows, authors, versions, loads);
    forall i | 0 <= i < |rows|
      ensures p.value[i].id == rows[i].id
      ensures p.value[i].changes == ChangesOfVersions(t.things, t.versions, [rows[i].id])
    {
      assert ProcessTransaction(rows[i], authors, versions, loads) == Ok(p.value[i]);
    }
  }

  /** Rows of the table are each processed with their own changes. */
  lemma RowsShow(t: Tables, rows: seq<TxRow>, loads: string -> Result<Value, Error>)
    requires forall i :: 0 <= i < |t.transactions| && HasAuthor(t.transactions[i].authorId) ==>
      t.transactions[i].authorId.value in ThingIds(t.things)
    requires forall i :: 0 <= i < |t.transactions| ==> Data(t.transactions[i], loads).Ok?
    requires forall i :: 0 <= i < |rows| ==> rows[i] in t.transactions
    ensures var authors := GetKeys(t.things, AuthorIds(rows));
      var versions := Grouped(VersionQuery(t, TxIds(rows)));
      forall i :: 0 <= i < |rows| ==>
        ProcessTransaction(rows[i], authors, versions, loads).Ok? &&
        ProcessTransaction(rows[i], authors, versions, loads).value.changes ==
          ChangesOfVersions(t.things, t.versions, [rows[i].id])
  {
    forall i | 0 <= i < |rows|
      ensures HasAuthor(rows[i].authorId) ==> rows[i].authorId.value in ThingIds(t.things)
      ensures Data(rows[i], loads).Ok?
    {
      var j :| 0 <= j < |t.transactions| && t.transactions[j] == rows[i];
    }
    forall i | 0 <= i < |rows|
      ensures var r := ProcessTransaction(rows[i], GetKeys(t.things, AuthorIds(rows)), Grouped(VersionQuery(t, TxIds(rows))), loads);
        r.Ok? && r.value.changes == ChangesOfVersions(t.things, t.versions, [rows[i].id])
    {
      RowShows(t, rows, i, loads);
    }
  }

  /** One selected row is processed with its own changes. */
  lemma RowShows(t: Tables, rows: seq<TxRow>, i: int, loads: string -> Result<Value, Error>)
    requires 0 <= i < |rows| && HasAuthor(rows[i].authorId) ==> rows[i].authorId.value in ThingIds(t.things)
    requires 0 <= i < |rows| && Data(rows[i], loads).Ok?
    ensures var r := ProcessTransaction(rows[i], GetKeys(t.things, AuthorIds(rows)), Grouped(VersionQuery(t, TxIds(rows))), loads);
      r.Ok? && r.value.changes == ChangesOfVersions(t.things, t.versions, [rows[i].id])
  {
    assert rows[i].id in TxIds(rows);
    ChangesOfQuery(t, TxIds(rows), rows[i].id);
  }

  /** As written, a transaction id that no transaction row has gets no changes. */
  lemma {:induction false} AsWrittenNone(t: Tables, txIds: seq<int>, id: int)
    requires forall i :: 0 <= i < |t.transactions| ==> t.transactions[i].id != id
    ensures ChangesOf(VersionQueryAsWritten(t, txIds), id) == []
    decreases |t.transactions|
  {
    if t.transactions != [] {
      var rest := t.(transactions := t.transactions[1..]);
      AsWrittenNone(rest, txIds, id);
      var all := ChangesOfVersions(t.things, t.versions, txIds);
      ChangesOfAppend(Tag(t.transactions[0].id, all), VersionQueryAsWritten(rest, txIds), id);
      TagChanges(t.transactions[0].id, all, id);
    }
  }

  /** As written, each transaction lists the changes of every requested transaction, not
      only its own. */
  lemma {:induction false} AsWrittenAll(t: Tables, txIds: seq<int>, k: int)
    requires 0 <= k < |t.transactions|
    requires forall j :: 0 <= j < |t.transactions| && j != k ==> t.transactions[j].id != t.transactions[k].id
    ensures ChangesOf(VersionQueryAsWritten(t, txIds), t.transactions[k].id) == ChangesOfVersions(t.things, t.versions, txIds)
    decreases |t.transactions|
  {
    var id := t.transactions[k].id;
    var rest := t.(transactions := t.transactions[1..]);
    var all := ChangesOfVersions(t.things, t.versions, txIds);
    ChangesOfAppend(Tag(t.transactions[0].id, all), VersionQueryAsWritten(rest, txIds), id);
    TagChanges(t.transactions[0].id, all, id);
    if k == 0 {
      AsWrittenNone(rest, txIds, id);
    } else {
      AsWrittenAll(rest, txIds, k - 1);
    }
  }

  /** As written, the version query pairs every transaction with the changes of all the
      requested ones: with two transactions of one change each, the first lists both. */
  lemma VersionQueryAsWrittenMixes()
    ensures var t := Tables([ThingRow(10, "/a"), ThingRow(11, "/b")],
                            [DbSave.Version(10, 1, 1), DbSave.Version(11, 1, 2)],
                            [TxRow(1, "save", DateTime(Date(2010, 1, 2), 0, 0, 0, 0), "", None, None, None, None),
                             TxRow(2, "save", DateTime(Date(2010, 1, 2), 0, 0, 0, 0), "", None, None, None, None)]);
      ChangesOf(VersionQueryAsWritten(t, [1, 2]), 1) == [Change("/a", 1), Change("/b", 1)] &&
      ChangesOf(VersionQuery(t, [1, 2]), 1) == [Change("/a", 1)]
  {
    var t := Tables([ThingRow(10, "/a"), ThingRow(11, "/b")],
                    [DbSave.Version(10, 1, 1), DbSave.Version(11, 1, 2)],
                    [TxRow(1, "save", DateTime(Date(2010, 1, 2), 0, 0, 0, 0), "", None, None, None, None),
                     TxRow(2, "save", DateTime(Date(2010, 1, 2), 0, 0, 0, 0), "", None, None, None, None)]);
    AsWrittenAll(t, [1, 2], 0);
    ChangesOfQuery(t, [1, 2], 1);
    TwoThingsChanges("/a", "/b", [1]);
    TwoThingsChanges("/a", "/b", [1, 2]);
  }

  /** The changes of two things saved in transactions 1 and 2. */
  lemma TwoThingsChanges(a: string, b: string, txIds: seq<int>)
    ensures ChangesOfVersions([ThingRow(10, a), ThingRow(11, b)], [DbSave.Version(10, 1, 1), DbSave.Version(11, 1, 2)], txIds)
      == (if 1 in txIds then [Change(a, 1)] else []) + (if 2 in txIds then [Change(b, 1)] else [])
  {
    var things := [ThingRow(10, a), ThingRow(11, b)];
    assert things[1..] == [ThingRow(11, b)] && things[1..][1..] == [];
    assert KeysOfThing(things[1..], 10, 1) == [];
    assert KeysOfThing(things, 10, 1) == [Change(a, 1)] + [];
    assert KeysOfThing(things[1..], 11, 1) == [Change(b, 1)] + [];
    assert KeysOfThing(things, 11, 1) == [] + [Change(b, 1)];
    var versions := [DbSave.Version(10, 1, 1), DbSave.Version(11, 1, 2)];
    assert versions[1..] == [DbSave.Version(11, 1, 2)] && versions[1..][1..] == [];
    var second := if 2 in txIds then [Change(b, 1)] else [];
    assert ChangesOfVersions(things, versions[1..], txIds) == second + [];
    assert ChangesOfVersions(things, versions, txIds) == (if 1 in txIds then [Change(a, 1)] else []) + second;
  }
}
