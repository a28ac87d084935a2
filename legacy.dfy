/**
 * The older connector of src/connector.py, where it differs from the newer
 * one: its column cache is a dictionary keyed by table, its cache refresh
 * passes an argument the column lookup does not take, and its insert
 * statement reads the columns of a dictionary of typed columns as if they
 * were the typed columns themselves. Its type mapper, value renderer,
 * update statement, connection string and retry loops are the ones modelled
 * in TypeMapping, SqlText, Retry and Connector.
 */
module Legacy {
  import opened Wrappers
  import opened PyValues
  import opened TypeMapping
  import opened SqlText
  import opened Connector

  class LegacyConnector {
    const table: string
    const typeMapper: TypeMapper
    const driver: Driver
    const store: Store
    /** `id_column`: always `'id'`, whatever the constructor was given. */
    const idColumn: string
    /** `table_columns`: column sets keyed by table name. */
    var tableColumns: map<string, set<string>>

    /**
     * The only assignment to the cache is in `cache_table_columns`, which
     * raises before it assigns, so the cache stays the empty dictionary
     * `__init__` sets.
     */
    ghost predicate Valid()
      reads this
    {
      tableColumns == map[]
    }

    /** `DBConnector(connection_string, table, type_mapper, verbose, id_column)` */
    constructor (table: string, typeMapper: TypeMapper, idColumn: string, driver: Driver, store: Store)
      ensures Valid()
      ensures this.table == table && this.typeMapper == typeMapper
      ensures this.driver == driver && this.store == store
      ensures this.idColumn == "id"
    {
      this.table := table;
      this.typeMapper := typeMapper;
      this.driver := driver;
      this.store := store;
      this.idColumn := "id";
      tableColumns := map[];
    }

    /**
     * `cache_table_columns()`: calls `get_table_columns(self.table)`, one
     * argument more than it takes, so it raises TypeError before anything
     * is sent or cached.
     */
    method CacheTableColumns() returns (r: Outcome<PyError>)
      ensures r == Fail(TypeError)
    {
      r := Fail(TypeError);
    }

    /** `has_column(column)`: KeyError when the working table has no cache entry. */
    function HasColumn(column: string): (r: Result<bool, PyError>)
      reads this
      ensures r.Err? <==> table !in tableColumns
      ensures r.Ok? ==> (r.value <==> column in tableColumns[table])
      ensures r.Err? ==> r.error == KeyError
    {
      if table in tableColumns then Ok(column in tableColumns[table]) else Err(KeyError)
    }

    /**
     * `add_columns(typed_columns)`: the first membership test raises
     * KeyError, so a non-empty dictionary of columns adds nothing and
     * raises, and an empty one does nothing.
     */
    method AddColumns(tl: seq<TypedColumn>) returns (r: Outcome<PyError>)
      requires Valid()
      ensures r == if tl == [] then Pass else Fail(KeyError)
    {
      r := Pass;
      if |tl| > 0 {
        var has := HasColumn(tl[0].column);
        if has.Err? {
          return Fail(has.error);
        }
        assert false;
      }
    }
  }

  /**
   * `sql_columns_and_values` of src/connector.py on a dictionary of typed
   * columns: iterating the dictionary yields its keys, which are strings and
   * have no `column` attribute, so any entry raises AttributeError.
   */
  function OldColumnsAndValues(tl: seq<TypedColumn>): (r: Result<(string, string), PyError>)
    ensures r.Ok? <==> tl == []
    ensures r.Err? ==> r.error == AttributeError
  {
    if tl == [] then Ok(("[]", "")) else Err(AttributeError)
  }

  /** `sql_insertion_str` of src/connector.py. */
  function OldInsertionStr(table: string, tl: seq<TypedColumn>): (r: Result<string, PyError>)
    ensures r.Ok? <==> tl == []
  {
    match OldColumnsAndValues(tl)
    case Err(e) => Err(e)
    case Ok(cv) => Ok("insert into " + table + " (" + cv.0 + ") values (" + cv.1 + ")")
  }

  /**
   * No row can be inserted with the older statement builder, while the
   * intended builder, which reads the names from the typed columns
   * themselves, renders every row whose values render.
   */
  lemma OldInsertionRaises(table: string, tl: seq<TypedColumn>)
    requires tl != []
    ensures OldInsertionStr(table, tl) == Err(AttributeError)
    ensures RenderAll(tl, RenderValue).Ok? ==> InsertionStr(table, tl).Ok?
    ensures OldInsertionStr(table, []) == Ok("insert into " + table + " ([]) values ()")
  {
    assert "insert into " + table + " (" + "[]" + ") values (" + "" + ")" == "insert into " + table + " ([]) values ()";
  }
}
