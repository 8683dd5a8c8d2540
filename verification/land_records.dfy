/** The SQLite database file `landgpt.db`: the `land_records` table with its
    UNIQUE identity and INSERT OR REPLACE upsert, the `legal_faqs` and
    `user_queries` tables, and the query text `search_land_records` builds.
    A table is a sequence of rows in rowid order. */
module LandRecords {
  import opened Text

  // ----- records and rows ---------------------------------------------------

  /** A value stored in a column: text, or a number (integer or float). */
  datatype Value = Str(s: string) | Num(x: real)

  /** The fourteen data columns of `land_records`, which are the keys
      insert_land_record reads from a record dict. */
  datatype Column =
    | District | Tehsil | Village | KhasraNumber | KhataNumber | OwnerName | FatherName
    | AreaHectare | AreaBigha | LandType | IrrigationStatus | CropDetails | MutationDate | RegistryDate

  /** The SQL name of a column, which is also its key in a record dict. */
  function Name(c: Column): string
  {
    match c
    case District => "district"
    case Tehsil => "tehsil"
    case Village => "village"
    case KhasraNumber => "khasra_number"
    case KhataNumber => "khata_number"
    case OwnerName => "owner_name"
    case FatherName => "father_name"
    case AreaHectare => "area_hectare"
    case AreaBigha => "area_bigha"
    case LandType => "land_type"
    case IrrigationStatus => "irrigation_status"
    case CropDetails => "crop_details"
    case MutationDate => "mutation_date"
    case RegistryDate => "registry_date"
  }

  /** The caller's record dict, restricted to the column keys (insert reads no
      other key): a column mapped to a value or to None. */
  type Record = map<Column, Option<Value>>

  /** `record.get(column)`: None both when the key is absent and when it is
      bound to None. */
  function Get(record: Record, column: Column): Option<Value>
  {
    if column in record then record[column] else None
  }

  /** The identity of a land parcel: UNIQUE(district, tehsil, village,
      khasra_number), all four NOT NULL. */
  datatype Key = Key(district: Value, tehsil: Value, village: Value, khasraNumber: Value)

  /** One row of `land_records`, without the auto-increment id and the
      created_at timestamp. */
  datatype Row = Row(
    key: Key,
    khataNumber: Option<Value>, ownerName: Option<Value>, fatherName: Option<Value>,
    areaHectare: Option<Value>, areaBigha: Option<Value>, landType: Option<Value>,
    irrigationStatus: Option<Value>, cropDetails: Option<Value>,
    mutationDate: Option<Value>, registryDate: Option<Value>)

  const IdentityColumns: seq<Column> := [District, Tehsil, Village, KhasraNumber]

  /** The columns insert_land_record writes, in the order it lists them. */
  const Columns: seq<Column> := IdentityColumns + [
    KhataNumber, OwnerName, FatherName, AreaHectare, AreaBigha,
    LandType, IrrigationStatus, CropDetails, MutationDate, RegistryDate]

  /** The value a row holds in a column (None for NULL). */
  function Cell(row: Row, column: Column): Option<Value>
  {
    match column
    case District => Some(row.key.district)
    case Tehsil => Some(row.key.tehsil)
    case Village => Some(row.key.village)
    case KhasraNumber => Some(row.key.khasraNumber)
    case KhataNumber => row.khataNumber
    case OwnerName => row.ownerName
    case FatherName => row.fatherName
    case AreaHectare => row.areaHectare
    case AreaBigha => row.areaBigha
    case LandType => row.landType
    case IrrigationStatus => row.irrigationStatus
    case CropDetails => row.cropDetails
    case MutationDate => row.mutationDate
    case RegistryDate => row.registryDate
  }

  /** The row INSERT OR REPLACE writes for a record: every column takes
      `record.get(column)`, so a missing field is stored as NULL. A NULL in
      an identity column violates NOT NULL; those columns have no default,
      so the statement aborts and no row is produced. */
  function RowOf(record: Record): (r: Option<Row>)
    ensures r.Some? <==> forall c :: c in IdentityColumns ==> Get(record, c).Some?
  {
    match (Get(record, District), Get(record, Tehsil), Get(record, Village), Get(record, KhasraNumber))
    case (Some(d), Some(t), Some(v), Some(k)) =>
      Some(Row(Key(d, t, v, k),
               Get(record, KhataNumber), Get(record, OwnerName), Get(record, FatherName),
               Get(record, AreaHectare), Get(record, AreaBigha), Get(record, LandType),
               Get(record, IrrigationStatus), Get(record, CropDetails),
               Get(record, MutationDate), Get(record, RegistryDate)))
    case _ => None
  }

  /** Every column of the row INSERT OR REPLACE writes holds
      `record.get(column)`: a re-insert overwrites all fields, and a field
      missing from the dict becomes NULL. */
  lemma RowOfColumns(record: Record)
    requires RowOf(record).Some?
    ensures forall c :: Cell(RowOf(record).value, c) == Get(record, c)
  {
  }

  // ----- the table and its identity constraint ------------------------------

  /** The number of rows whose identity is `k`. */
  function CountKey(rows: seq<Row>, k: Key): nat
  {
    if rows == [] then 0
    else CountKey(rows[..|rows| - 1], k) + (if rows[|rows| - 1].key == k then 1 else 0)
  }

  /** The UNIQUE constraint: no identity occurs in two rows. */
  ghost predicate KeysUnique(rows: seq<Row>)
  {
    forall k :: CountKey(rows, k) <= 1
  }

  /** The rows whose identity is not `k`, in their order. */
  function RemoveKey(rows: seq<Row>, k: Key): seq<Row>
  {
    if rows == [] then []
    else RemoveKey(rows[..|rows| - 1], k) + (if rows[|rows| - 1].key == k then [] else [rows[|rows| - 1]])
  }

  lemma {:induction false} RemoveKeyCounts(rows: seq<Row>, k: Key, j: Key)
    ensures CountKey(RemoveKey(rows, k), j) == if j == k then 0 else CountKey(rows, j)
  {
    if rows != [] {
      var init, last := rows[..|rows| - 1], rows[|rows| - 1];
      RemoveKeyCounts(init, k, j);
      var r := RemoveKey(init, k);
      if last.key != k {
        assert (r + [last])[..|r|] == r;
      } else {
        assert RemoveKey(rows, k) == r;
      }
    }
  }

  /** INSERT OR REPLACE: the rows with the new row's identity are deleted and
      the new row is inserted with a fresh, larger rowid, so it comes last.
      Afterwards exactly one row has that identity and every other identity
      occurs as often as before. */
  function Upsert(rows: seq<Row>, row: Row): (r: seq<Row>)
    ensures |r| > 0 && r[|r| - 1] == row
    ensures forall j :: CountKey(r, j) == if j == row.key then 1 else CountKey(rows, j)
  {
    var kept := RemoveKey(rows, row.key);
    assert (kept + [row])[..|kept|] == kept;
    assert forall j :: CountKey(kept, j) == if j == row.key then 0 else CountKey(rows, j) by {
      forall j { RemoveKeyCounts(rows, row.key, j); }
    }
    kept + [row]
  }

  /** The table read as a dictionary from identity to row; a later row wins,
      as a later INSERT OR REPLACE does. */
  function AsMap(rows: seq<Row>): map<Key, Row>
  {
    if rows == [] then map[]
    else AsMap(rows[..|rows| - 1])[rows[|rows| - 1].key := rows[|rows| - 1]]
  }

  lemma {:induction false} AsMapRemoveKey(rows: seq<Row>, k: Key)
    ensures AsMap(RemoveKey(rows, k)) == AsMap(rows) - {k}
  {
    if rows != [] {
      var init, last := rows[..|rows| - 1], rows[|rows| - 1];
      AsMapRemoveKey(init, k);
      var r := RemoveKey(init, k);
      if last.key != k {
        assert (r + [last])[..|r|] == r;
        assert AsMap(r + [last]) == (AsMap(init) - {k})[last.key := last];
        assert (AsMap(init) - {k})[last.key := last] == AsMap(init)[last.key := last] - {k};
      } else {
        assert RemoveKey(rows, k) == r;
        assert AsMap(rows) - {k} == AsMap(init) - {k};
      }
    }
  }

  /** Seen as a dictionary keyed by identity, an upsert is a dictionary
      update: the new row replaces whatever the identity held, and every
      other identity keeps its row. */
  lemma UpsertIsMapUpdate(rows: seq<Row>, row: Row)
    ensures AsMap(Upsert(rows, row)) == AsMap(rows)[row.key := row]
  {
    var kept := RemoveKey(rows, row.key);
    assert (kept + [row])[..|kept|] == kept;
    AsMapRemoveKey(rows, row.key);
    assert (AsMap(rows) - {row.key})[row.key := row] == AsMap(rows)[row.key := row];
  }

  /** An identity is in the dictionary view exactly when some row has it. */
  lemma {:induction false} AsMapHasKey(rows: seq<Row>, k: Key)
    ensures k in AsMap(rows) <==> CountKey(rows, k) > 0
  {
    if rows != [] {
      AsMapHasKey(rows[..|rows| - 1], k);
    }
  }

  /** Under the UNIQUE constraint the table has one row per identity, so it
      holds as many rows as its dictionary view has keys. */
  lemma {:induction false} UniqueRowsMatchMap(rows: seq<Row>)
    requires KeysUnique(rows)
    ensures |AsMap(rows)| == |rows|
  {
    if rows != [] {
      var init, last := rows[..|rows| - 1], rows[|rows| - 1];
      assert KeysUnique(init) by {
        forall k ensures CountKey(init, k) <= 1 { assert CountKey(init, k) <= CountKey(rows, k); }
      }
      UniqueRowsMatchMap(init);
      assert CountKey(rows, last.key) <= 1;
      AsMapHasKey(init, last.key);
    }
  }

  /** An upsert keeps the UNIQUE constraint, grows the table by one row when
      the identity is new and keeps its size when the identity was present. */
  lemma UpsertKeepsUnique(rows: seq<Row>, row: Row)
    requires KeysUnique(rows)
    ensures KeysUnique(Upsert(rows, row))
    ensures |Upsert(rows, row)| == if CountKey(rows, row.key) == 0 then |rows| + 1 else |rows|
  {
    var r := Upsert(rows, row);
    assert KeysUnique(r) by {
      forall k ensures CountKey(r, k) <= 1 { }
    }
    UniqueRowsMatchMap(rows);
    UniqueRowsMatchMap(r);
    UpsertIsMapUpdate(rows, row);
    AsMapHasKey(rows, row.key);
  }

  // ----- the other two tables -----------------------------------------------

  /** A `legal_faqs` row, without id and created_at. No constraint ties two
      rows together: duplicates are allowed. */
  datatype Faq = Faq(question: string, answer: string, category: string, tags: string, language: string)

  /** A `user_queries` row, without id and timestamp. */
  datatype QueryLogEntry = QueryLogEntry(query: string, response: Option<string>, queryType: Option<string>)

  /** The contents of a database file. */
  datatype Tables = Tables(landRecords: seq<Row>, legalFaqs: seq<Faq>, userQueries: seq<QueryLogEntry>)

  // ----- search_land_records query construction -----------------------------

  /** One keyword argument of search_land_records: a column name and its
      value, None when the caller passed None. */
  datatype Criterion = Criterion(column: string, value: Option<string>)

  /** Python truthiness of the argument value: None and "" are false. */
  predicate Truthy(v: Option<string>)
  {
    v.Some? && v.value != ""
  }

  const SelectAll: string := "SELECT * FROM land_records WHERE 1=1"

  function LikeClause(column: string): string
  {
    " AND " + column + " LIKE ?"
  }

  function LikeParam(value: string): string
  {
    "%" + value + "%"
  }

  /** The clauses the loop appends, one per truthy criterion, in argument
      order. */
  function Clauses(criteria: seq<Criterion>): string
  {
    if criteria == [] then ""
    else
      var last := criteria[|criteria| - 1];
      Clauses(criteria[..|criteria| - 1]) + (if Truthy(last.value) then LikeClause(last.column) else "")
  }

  /** The parameters the loop appends, one per truthy criterion, in argument
      order. */
  function Params(criteria: seq<Criterion>): seq<string>
  {
    if criteria == [] then []
    else
      var last := criteria[|criteria| - 1];
      Params(criteria[..|criteria| - 1]) + (if Truthy(last.value) then [LikeParam(last.value.value)] else [])
  }

  /** With no truthy criterion the query is the bare SELECT with no
      parameters, and only then. */
  lemma {:induction false} SearchWithoutCriteria(criteria: seq<Criterion>)
    ensures (forall i :: 0 <= i < |criteria| ==> !Truthy(criteria[i].value))
            <==> (SelectAll + Clauses(criteria) == SelectAll && Params(criteria) == [])
  {
    if criteria != [] {
      var init := criteria[..|criteria| - 1];
      SearchWithoutCriteria(init);
      assert forall i :: 0 <= i < |init| ==> init[i] == criteria[i];
      if Truthy(criteria[|criteria| - 1].value) {
        assert |Params(criteria)| > 0;
      }
    }
  }

  lemma SelectAllHasNoPlaceholder()
    ensures CountChar(SelectAll, '?') == 0
  {
    CountCharAbsent(SelectAll, '?');
  }

  lemma LikeClausePlaceholder(column: string)
    requires '?' !in column
    ensures CountChar(LikeClause(column), '?') == 1
  {
    CountCharAppend(" AND " + column, " LIKE ?", '?');
    CountCharAppend(" AND ", column, '?');
    CountCharAbsent(column, '?');
  }

  lemma {:induction false} ClausesPlaceholders(criteria: seq<Criterion>)
    requires forall i :: 0 <= i < |criteria| ==> '?' !in criteria[i].column
    ensures CountChar(Clauses(criteria), '?') == |Params(criteria)|
  {
    if criteria != [] {
      var init, last := criteria[..|criteria| - 1], criteria[|criteria| - 1];
      assert forall i :: 0 <= i < |init| ==> init[i] == criteria[i];
      ClausesPlaceholders(init);
      if Truthy(last.value) {
        CountCharAppend(Clauses(init), LikeClause(last.column), '?');
        LikeClausePlaceholder(last.column);
      } else {
        assert Clauses(criteria) == Clauses(init);
      }
    }
  }

  /** When no column name contains '?', the query has exactly one '?'
      placeholder per parameter, so SQLite binds every parameter. */
  lemma SearchPlaceholdersMatchParams(criteria: seq<Criterion>)
    requires forall i :: 0 <= i < |criteria| ==> '?' !in criteria[i].column
    ensures CountChar(SelectAll + Clauses(criteria), '?') == |Params(criteria)|
  {
    SelectAllHasNoPlaceholder();
    ClausesAfterBase(SelectAll, criteria);
  }

  lemma ClausesAfterBase(base: string, criteria: seq<Criterion>)
    requires CountChar(base, '?') == 0
    requires forall i :: 0 <= i < |criteria| ==> '?' !in criteria[i].column
    ensures CountChar(base + Clauses(criteria), '?') == |Params(criteria)|
  {
    ClausesPlaceholders(criteria);
    CountCharAppend(base, Clauses(criteria), '?');
  }

  // ----- the database object ------------------------------------------------

  /** `LandRecordDB`: one database file holding the three tables. */
  class LandRecordDb {
    var landRecords: seq<Row>
    var legalFaqs: seq<Faq>
    var userQueries: seq<QueryLogEntry>

    ghost predicate Valid()
      reads this
    {
      KeysUnique(landRecords)
    }

    /** `LandRecordDB(db_path)`: init_database runs CREATE TABLE IF NOT
        EXISTS, so a file that already holds tables keeps their rows; a new
        file is `Tables([], [], [])`. */
    constructor (file: Tables)
      requires KeysUnique(file.landRecords)
      ensures Valid()
      ensures landRecords == file.landRecords && legalFaqs == file.legalFaqs && userQueries == file.userQueries
    {
      landRecords := file.landRecords;
      legalFaqs := file.legalFaqs;
      userQueries := file.userQueries;
    }

    /** `insert_land_record`: True after the INSERT OR REPLACE commits, False
        when it raises. It raises when an identity field is missing (NOT
        NULL) or when the storage fails (`storageOk` false); on False the
        table is as it was. */
    method InsertLandRecord(record: Record, storageOk: bool) returns (ok: bool)
      requires Valid()
      modifies this
      ensures Valid()
      ensures ok <==> storageOk && RowOf(record).Some?
      ensures ok ==> landRecords == Upsert(old(landRecords), RowOf(record).value)
      ensures !ok ==> landRecords == old(landRecords)
      ensures legalFaqs == old(legalFaqs) && userQueries == old(userQueries)
    {
      var row := RowOf(record);
      if row.Some? && storageOk {
        UpsertKeepsUnique(landRecords, row.value);
        landRecords := Upsert(landRecords, row.value);
        ok := true;
      } else {
        ok := false;
      }
    }

    /** `search_land_records`: the query text and parameter list it hands to
        SQLite. Each truthy keyword argument, in order, adds one
        ` AND <column> LIKE ?` clause and one `%<value>%` parameter. */
    method SearchLandRecords(criteria: seq<Criterion>) returns (query: string, params: seq<string>)
      ensures query == SelectAll + Clauses(criteria)
      ensures params == Params(criteria)
    {
      query := SelectAll;
      params := [];
      var i := 0;
      while i < |criteria|
        invariant 0 <= i <= |criteria|
        invariant query == SelectAll + Clauses(criteria[..i])
        invariant params == Params(criteria[..i])
      {
        var c := criteria[i];
        assert criteria[..i + 1][..i] == criteria[..i];
        if Truthy(c.value) {
          query := query + LikeClause(c.column);
          params := params + [LikeParam(c.value.value)];
        }
        i := i + 1;
      }
      assert criteria[..i] == criteria;
    }
  }
}
