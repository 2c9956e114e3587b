/** The document indexer of the Infobase store (infogami/infobase/_dbstore/indexer.py): the rows
    (datatype, key, value) a document is indexed under, and the rows to delete and insert when
    a document changes. */
module Indexer {
  import opened Wrappers
  import opened Json
  import opened Strings
  import InfobaseUtils

  /** One index row: 'ref', 'str' or 'int', the flattened property name, the value. */
  datatype IndexRow = IndexRow(dtype: string, key: string, value: Value)

  datatype Error = AttributeError

  /** Flattened names that are never indexed. */
  const SkippedKeys: set<string> := {"id", "key", "type.key", "revision", "latest_revison", "last_modified", "created"}

  predicate Indexed(k: string) {
    k !in SkippedKeys && !EndsWith(k, ".value") && !EndsWith(k, ".type")
  }

  /** The row for one flattened (name, value) pair: a name ending in ".key" is a reference
      under the name without that suffix; text is 'str'; an int (a bool is one in Python) is
      'int'; anything else, a `long` included, has no row. */
  function RowOf(k: string, v: Value): (r: Option<IndexRow>)
    ensures EndsWith(k, ".key") ==> r == Some(IndexRow("ref", k[..|k| - 4], v))
    ensures !EndsWith(k, ".key") && IsText(v) ==> r == Some(IndexRow("str", k, v))
    ensures !EndsWith(k, ".key") && ((v.Int? && IsShortInt(v.i)) || v.Bool?) ==> r == Some(IndexRow("int", k, v))
    ensures r.None? <==> !EndsWith(k, ".key") && !IsText(v) && !(v.Int? && IsShortInt(v.i)) && !v.Bool?
  {
    if EndsWith(k, ".key") then Some(IndexRow("ref", k[..|k| - 4], v))
    else if IsText(v) then Some(IndexRow("str", k, v))
    else if (v.Int? && IsShortInt(v.i)) || v.Bool? then Some(IndexRow("int", k, v))
    else None
  }

  /** The flattened pairs of a document (`flatten_dict`). */
  function Flat(doc: seq<(string, Value)>): seq<(string, Value)> {
    InfobaseUtils.FlatItems("", Dict(doc))
  }

  /** The rows of the indexed pairs among `pairs`, duplicates collapsed. */
  function Rows(pairs: seq<(string, Value)>): (rows: set<IndexRow>)
    ensures forall p :: p in pairs && Indexed(p.0) && RowOf(p.0, p.1).Some? ==> RowOf(p.0, p.1).value in rows
    ensures forall row :: row in rows ==> exists p :: p in pairs && Indexed(p.0) && RowOf(p.0, p.1) == Some(row)
  {
    set p | p in pairs && Indexed(p.0) && RowOf(p.0, p.1).Some? :: RowOf(p.0, p.1).value
  }

  /** `compute_index(doc)`, as a set. */
  function ComputeIndex(doc: seq<(string, Value)>): set<IndexRow> {
    Rows(Flat(doc))
  }

  /** What each row says about the pairs it came from: a reference comes from a name ending in
      ".key", and text and int rows carry the pair itself. */
  lemma RowsOfPairs(pairs: seq<(string, Value)>, row: IndexRow)
    requires row in Rows(pairs)
    ensures row.dtype in {"ref", "str", "int"}
    ensures row.dtype == "ref" ==> (row.key + ".key", row.value) in pairs && Indexed(row.key + ".key")
    ensures row.dtype == "str" ==> (row.key, row.value) in pairs && Indexed(row.key) && IsText(row.value)
    ensures row.dtype == "int" ==> (row.key, row.value) in pairs && Indexed(row.key) && (row.value.Int? || row.value.Bool?)
  {
    var p :| p in pairs && Indexed(p.0) && RowOf(p.0, p.1) == Some(row);
    RowOfParts(p.0, p.1, row);
  }

  /** Where the row of one pair comes from. */
  lemma RowOfParts(k: string, v: Value, row: IndexRow)
    requires RowOf(k, v) == Some(row)
    ensures row.dtype in {"ref", "str", "int"}
    ensures row.dtype == "ref" ==> k == row.key + ".key" && v == row.value
    ensures row.dtype == "str" ==> k == row.key && v == row.value && IsText(v)
    ensures row.dtype == "int" ==> k == row.key && v == row.value && (v.Int? || v.Bool?)
  {
    assert "ref"[0] != "str"[0] && "ref"[0] != "int"[0] && "str"[0] != "int"[0];
    if EndsWith(k, ".key") {
      assert k == k[..|k| - 4] + ".key";
    }
  }

  /** `doc.get('type', {}).get('key', None)`; a 'type' that is not a dict has no `get`. */
  function TypeKey(doc: seq<(string, Value)>): (r: Result<Value, Error>)
    ensures !HasKey(doc, "type") ==> r == Ok(Null)
  {
    match Get(doc, "type")
    case None => Ok(Null)
    case Some(t) => if t.Dict? then Ok(Get(t.entries, "key").GetOr(Null)) else Err(AttributeError)
  }

  /** `diff_index(old_doc, new_doc)`: without an old document nothing is deleted; when the type
      changed every old row is deleted and every new row inserted; otherwise only the rows that
      differ. */
  function DiffIndex(oldDoc: Option<seq<(string, Value)>>, newDoc: seq<(string, Value)>): (r: Result<(set<IndexRow>, set<IndexRow>), Error>)
    ensures oldDoc.None? || oldDoc == Some([]) ==> r == Ok(({}, ComputeIndex(newDoc)))
    ensures r.Ok? ==> r.value.1 <= ComputeIndex(newDoc)
    ensures r.Ok? && oldDoc.Some? ==> r.value.0 <= ComputeIndex(oldDoc.value)
    ensures r.Ok? ==> r.value.0 !! r.value.1 || TypeKey(oldDoc.value) != TypeKey(newDoc)
  {
    var newIndex := ComputeIndex(newDoc);
    if oldDoc.None? || oldDoc.value == [] then Ok(({}, newIndex))
    else
      var oldIndex := ComputeIndex(oldDoc.value);
      match TypeKey(oldDoc.value)
      case Err(e) => Err(e)
      case Ok(oldType) =>
        match TypeKey(newDoc)
        case Err(e) => Err(e)
        case Ok(newType) =>
          if oldType != newType then Ok((oldIndex, newIndex))
          else Ok((oldIndex - newIndex, newIndex - oldIndex))
  }

  /** Deleting and then inserting the rows of the diff turns the old index into the new one. */
  lemma DiffApplies(oldDoc: Option<seq<(string, Value)>>, newDoc: seq<(string, Value)>)
    requires DiffIndex(oldDoc, newDoc).Ok?
    ensures var (deletes, inserts) := DiffIndex(oldDoc, newDoc).value;
      var before := if oldDoc.None? || oldDoc.value == [] then {} else ComputeIndex(oldDoc.value);
      (before - deletes) + inserts == ComputeIndex(newDoc)
  {
  }
}
