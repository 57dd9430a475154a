/** The values and failure kinds shared by the database access layer. */
module DataStore {
  import opened Results
  import opened PhpValues

  /** Named bind parameters as handed to a prepared statement. */
  type Bind = map<string, Value>

  /** One fetched row, column name to value (`PDO::FETCH_ASSOC`). */
  type Row = map<string, Value>

  /** A SQL text with its bind parameters. */
  datatype Query = Query(sql: string, bind: Bind)

  /** What an execute-style call reports. */
  datatype Summary = Summary(lastInsertId: int, rowCount: int)

  /** A prepared statement of the connection, kept opaque. */
  datatype Handle = Handle(serial: nat)

  /** An exception thrown by the connection itself (a `PDOException`), kept opaque. */
  datatype Cause = Cause(message: string)

  /** The message codes with which the driver throws a `QueryException`. */
  datatype QueryCode =
    | BindParamEmpty          // "BIND_PARAM_EMPTY"
    | SimpleQueryException    // "SIMPLE_QUERY_EXCEPTION"
    | SimpleExecuteException  // "SIMPLE_EXECUTE_EXCEPTION"
    | PrepareException        // "PREPARE_EXCEPTION"
    | ExecuteException        // "EXECUTE_EXCEPTION"

  /**
   * Everything a driver call can throw. `QueryException` carries the context
   * array of the PHP exception (the `sql` and `bind` entries, where present)
   * and the exception it wraps; `NoStatement` stands for the PHP `Error` of
   * calling a method on a missing or cleared statement slot, which no
   * `catch (Exception $e)` intercepts.
   */
  datatype Failure =
    | ConnectionError(cause: Cause)
    | QueryException(code: QueryCode, sql: Option<string>, bind: Option<Bind>, previous: Option<Failure>)
    | UnexpectedResult(query: string, binds: Bind, rows: seq<Row>)
    | NoStatement(identifier: string)

  /** The statement slot that `simpleFetch` and `simpleExecute` use. */
  const Single: string := "single"
}
