/**
 * `PdoDriver`: bind expansion, pagination, the table of prepared statements
 * and the query executor over a PDO connection.
 *
 * The connection is foreign code. Every call that reaches it takes a
 * `Connection` argument describing how the connection answers during that
 * call: which handle (or exception) `prepare` gives, whether a statement's
 * `execute` throws, what `fetchAll`, `rowCount` and `lastInsertId` return.
 */
module PdoDriver {
  import opened Results
  import opened PhpValues
  import opened Text
  import opened DataStore
  import opened BindExpansion
  import opened Pagination

  /** The answers of the PDO connection during one driver call. */
  datatype Connection = Connection(
    prepare: string -> Result<Handle, Cause>,     // PDO::prepare
    execute: (Handle, Bind) -> Outcome<Cause>,    // PDOStatement::execute
    fetchAll: Handle -> Option<seq<Row>>,         // PDOStatement::fetchAll; None for `false`
    rowCount: Handle -> int,                      // PDOStatement::rowCount
    lastInsertId: int)                            // (int) PDO::lastInsertId

  /**
   * `prepareBind($sql, $bind)`: visits the original bind array in order; a
   * list value is checked for emptiness, each of its elements is bound under
   * `name_<key>`, the list key is removed and `:name` is replaced in the SQL.
   */
  method PrepareBind(sql: string, bind: PhpArray) returns (r: Result<Query, Failure>)
    ensures r == Expand(sql, bind)
  {
    var text := sql;
    var current := ToMap(bind);
    var i := 0;
    while i < |bind|
      invariant 0 <= i <= |bind|
      invariant ExpandPrefix(sql, bind, i) == Success(Query(text, current))
    {
      var (name, item) := bind[i];
      ExpandPrefixNext(sql, bind, i);
      if item.Arr? {
        var items := item.entries;
        if items == [] {
          ExpandPrefixFailureSticks(sql, bind, i + 1, |bind|);
          return Failure(QueryException(BindParamEmpty, Some(text), Some(current), None));
        }
        var identifiers;
        current, identifiers := BindElements(current, name, items);
        current := current - {name};
        text := ReplaceAll(text, Placeholder(name), Implode(", ", identifiers));
      }
      i := i + 1;
    }
    return Success(Query(text, current));
  }

  /**
   * The inner loop of `prepareBind`: binds every element of list `name` under
   * `name_<key>` and collects the matching placeholders, in element order.
   */
  method BindElements(bind: Bind, name: string, items: PhpArray) returns (current: Bind, identifiers: seq<string>)
    ensures current == AddElements(bind, name, items)
    ensures identifiers == Tokens(name, items)
  {
    current := bind;
    identifiers := [];
    var e := 0;
    while e < |items|
      invariant 0 <= e <= |items|
      invariant current == AddElements(bind, name, items[..e])
      invariant identifiers == Tokens(name, items[..e])
    {
      var (id, parameter) := items[e];
      current := current[ElementName(name, id) := parameter];
      identifiers := identifiers + [Placeholder(ElementName(name, id))];
      assert items[..e + 1][..e] == items[..e];
      e := e + 1;
    }
    assert items[..e] == items;
  }

  /** The first half of `buildPageLimits`: the ORDER BY part, ascending when no direction is given. */
  method OrderStub(sortField: string, sortDirection: string) returns (stub: string)
    ensures stub == OrderClause(sortField, sortDirection)
  {
    stub := "";
    var direction := sortDirection;
    if EmptyString(direction) {
      direction := Ascending;
    }
    if !EmptyString(sortField) {
      stub := stub + "ORDER BY " + sortField + " " + direction;
    }
  }

  /** The second half of `buildPageLimits`: appends " LIMIT ..." when a non-empty limit is given. */
  method AppendLimit(order: string, limit: Option<int>, page: Option<int>) returns (stub: string)
    ensures stub == if LimitClause(limit, page) == [] then order else order + " " + LimitClause(limit, page)
  {
    stub := order;
    if !EmptyInt(limit) {
      if !EmptyInt(page) {
        var offset := limit.value * page.value;
        var offsetText, limitText := IntToString(offset), IntToString(limit.value);
        LimitSpacing(stub, offsetText + ", " + limitText);
        stub := stub + " LIMIT " + (offsetText + ", " + limitText);
      } else {
        var limitText := IntToString(limit.value);
        LimitSpacing(stub, limitText);
        stub := stub + " LIMIT " + limitText;
      }
    }
  }

  /**
   * `buildPageLimits($sortField, $sortDirection, $limit, $page)`: appends the
   * ORDER BY part, then " LIMIT ...", then strips the leading spaces; the
   * result is the two clauses joined by one space.
   */
  method BuildPageLimits(sortField: string, sortDirection: string, limit: Option<int>, page: Option<int>)
    returns (stub: string)
    ensures stub == PageLimits(sortField, sortDirection, limit, page)
  {
    var order := OrderStub(sortField, sortDirection);
    stub := AppendLimit(order, limit, page);
    ClauseShapes(sortField, sortDirection, limit, page);
    TrimJoined(order, LimitClause(limit, page));
    stub := TrimLeadingSpaces(stub);
  }

  /** `false` from `fetchAll` becomes the empty list of rows. */
  function Rows(fetched: Option<seq<Row>>): seq<Row> {
    match fetched
    case None => []
    case Some(rows) => rows
  }

  /** A connection exception met while preparing `sql`, as `prepare` rethrows it. */
  function PrepareFailure(sql: string, cause: Cause): Failure {
    QueryException(PrepareException, Some(sql), None, Some(ConnectionError(cause)))
  }

  /** `fetch` on statement `h`: run it, then read all rows. */
  function FetchWith(pdo: Connection, h: Handle, bind: Bind): Result<seq<Row>, Failure> {
    match pdo.execute(h, bind)
    case Fail(cause) => Failure(QueryException(PrepareException, None, Some(bind), Some(ConnectionError(cause))))
    case Pass => Success(Rows(pdo.fetchAll(h)))
  }

  /** `execute` on statement `h`: run it, then report the last insert id and the row count. */
  function ExecuteWith(pdo: Connection, h: Handle, bind: Bind): Result<Summary, Failure> {
    match pdo.execute(h, bind)
    case Fail(cause) => Failure(QueryException(ExecuteException, None, Some(bind), Some(ConnectionError(cause))))
    case Pass => Success(Summary(pdo.lastInsertId, pdo.rowCount(h)))
  }

  /** The expand-then-prepare part of `simpleFetch` and `simpleExecute`. */
  function Compile(sql: string, bind: PhpArray, pdo: Connection): Result<(Query, Handle), Failure> {
    match Expand(sql, bind)
    case Failure(e) => Failure(e)
    case Success(q) =>
      match pdo.prepare(q.sql)
      case Failure(cause) => Failure(PrepareFailure(q.sql, cause))
      case Success(h) => Success((q, h))
  }

  /** How `simpleFetch`/`simpleExecute` rethrow an exception caught from the steps they call. */
  function Wrap(code: QueryCode, sql: string, bind: PhpArray, inner: Failure): Failure {
    QueryException(code, Some(sql), Some(ToMap(bind)), Some(inner))
  }

  function SimpleFetchResult(sql: string, bind: PhpArray, pdo: Connection): Result<seq<Row>, Failure> {
    match Compile(sql, bind, pdo)
    case Failure(e) => Failure(Wrap(SimpleQueryException, sql, bind, e))
    case Success((q, h)) =>
      match FetchWith(pdo, h, q.bind)
      case Failure(e) => Failure(Wrap(SimpleQueryException, sql, bind, e))
      case Success(rows) => Success(rows)
  }

  function SimpleExecuteResult(sql: string, bind: PhpArray, pdo: Connection): Result<Summary, Failure> {
    match Compile(sql, bind, pdo)
    case Failure(e) => Failure(Wrap(SimpleExecuteException, sql, bind, e))
    case Success((q, h)) =>
      match ExecuteWith(pdo, h, q.bind)
      case Failure(e) => Failure(Wrap(SimpleExecuteException, sql, bind, e))
      case Success(summary) => Success(summary)
  }

  /** The statement table after `simpleFetch` or `simpleExecute`: slot "single" holds the new statement, if one was prepared. */
  function SlotsAfterSimple(slots: map<string, Option<Handle>>, sql: string, bind: PhpArray, pdo: Connection)
    : map<string, Option<Handle>>
  {
    match Compile(sql, bind, pdo)
    case Failure(_) => slots
    case Success((_, h)) => slots[Single := Some(h)]
  }

  /**
   * The cardinality check of `simpleFetchOne`: no row gives null, one row
   * gives that row, more than one is an UnexpectedResultException.
   */
  function SelectOne(sql: string, bind: PhpArray, rows: seq<Row>): (r: Result<Option<Row>, Failure>)
    ensures r == Success(None) <==> |rows| == 0
    ensures r.Success? && r.value.Some? <==> |rows| == 1
    ensures |rows| == 1 ==> r == Success(Some(rows[0]))
    ensures r.Failure? <==> |rows| > 1
    ensures r.Failure? ==> r.error == UnexpectedResult(sql, ToMap(bind), rows)
  {
    if |rows| == 0 then Success(None)
    else if |rows| > 1 then Failure(UnexpectedResult(sql, ToMap(bind), rows))
    else Success(Some(rows[0]))
  }

  function SimpleFetchOneResult(sql: string, bind: PhpArray, pdo: Connection): Result<Option<Row>, Failure> {
    match SimpleFetchResult(sql, bind, pdo)
    case Failure(e) => Failure(e)
    case Success(rows) => SelectOne(sql, bind, rows)
  }

  /**
   * Every exception `simpleFetch` lets out is a SIMPLE_QUERY_EXCEPTION that
   * carries the caller's sql and bind and wraps the exception of the step
   * that failed: BIND_PARAM_EMPTY from the expansion, or PREPARE_EXCEPTION
   * from preparing or from running the statement.
   */
  lemma SimpleFetchFailures(sql: string, bind: PhpArray, pdo: Connection)
    ensures var r := SimpleFetchResult(sql, bind, pdo);
      r.Failure? ==>
        r.error.QueryException? && r.error.code == SimpleQueryException &&
        r.error.sql == Some(sql) && r.error.bind == Some(ToMap(bind)) &&
        r.error.previous.Some? && r.error.previous.value.QueryException? &&
        (r.error.previous.value.code == BindParamEmpty || r.error.previous.value.code == PrepareException)
  {
    ExpandFailsIffEmptyList(sql, bind);
  }

  /**
   * Every exception `simpleExecute` lets out is a SIMPLE_EXECUTE_EXCEPTION
   * that carries the caller's sql and bind and wraps BIND_PARAM_EMPTY,
   * PREPARE_EXCEPTION or EXECUTE_EXCEPTION.
   */
  lemma SimpleExecuteFailures(sql: string, bind: PhpArray, pdo: Connection)
    ensures var r := SimpleExecuteResult(sql, bind, pdo);
      r.Failure? ==>
        r.error.QueryException? && r.error.code == SimpleExecuteException &&
        r.error.sql == Some(sql) && r.error.bind == Some(ToMap(bind)) &&
        r.error.previous.Some? && r.error.previous.value.QueryException? &&
        (r.error.previous.value.code == BindParamEmpty || r.error.previous.value.code == PrepareException ||
         r.error.previous.value.code == ExecuteException)
  {
    ExpandFailsIffEmptyList(sql, bind);
  }

  /**
   * An empty list in the bind array is rejected before anything reaches the
   * connection: both `simpleFetch` and `simpleExecute` fail with a wrapped
   * BIND_PARAM_EMPTY and no statement is stored.
   */
  lemma EmptyListRejectedBeforePrepare(sql: string, bind: PhpArray, pdo: Connection, slots: map<string, Option<Handle>>)
    requires HasEmptyList(bind)
    ensures var r := SimpleFetchResult(sql, bind, pdo);
      r.Failure? && r.error.QueryException? && r.error.previous.Some? &&
      r.error.previous.value.QueryException? && r.error.previous.value.code == BindParamEmpty
    ensures var r := SimpleExecuteResult(sql, bind, pdo);
      r.Failure? && r.error.QueryException? && r.error.previous.Some? &&
      r.error.previous.value.QueryException? && r.error.previous.value.code == BindParamEmpty
    ensures SlotsAfterSimple(slots, sql, bind, pdo) == slots
  {
    ExpandFailsIffEmptyList(sql, bind);
  }

  /**
   * `simpleFetch` succeeds exactly when the expansion succeeds (no empty list
   * in the bind array), the connection
   * prepares the expanded sql and runs it with the expanded bind; the rows are
   * then those the statement stored in slot "single" gives, `[]` for `false`.
   */
  lemma SimpleFetchSuccess(sql: string, bind: PhpArray, pdo: Connection, slots: map<string, Option<Handle>>)
    ensures SimpleFetchResult(sql, bind, pdo).Success? <==>
      Expand(sql, bind).Success? &&
      pdo.prepare(Expand(sql, bind).value.sql).Success? &&
      pdo.execute(pdo.prepare(Expand(sql, bind).value.sql).value, Expand(sql, bind).value.bind).Pass?
    ensures SimpleFetchResult(sql, bind, pdo).Success? ==>
      var after := SlotsAfterSimple(slots, sql, bind, pdo);
      Single in after && after[Single].Some? &&
      SimpleFetchResult(sql, bind, pdo).value == Rows(pdo.fetchAll(after[Single].value))
  {
    ExpandFailsIffEmptyList(sql, bind);
  }

  /**
   * `simpleExecute` succeeds exactly when the expansion succeeds, the
   * connection prepares the expanded sql and runs it; the summary is the last
   * insert id and the row count of the statement stored in slot "single".
   */
  lemma SimpleExecuteSuccess(sql: string, bind: PhpArray, pdo: Connection, slots: map<string, Option<Handle>>)
    ensures SimpleExecuteResult(sql, bind, pdo).Success? <==>
      Expand(sql, bind).Success? &&
      pdo.prepare(Expand(sql, bind).value.sql).Success? &&
      pdo.execute(pdo.prepare(Expand(sql, bind).value.sql).value, Expand(sql, bind).value.bind).Pass?
    ensures SimpleExecuteResult(sql, bind, pdo).Success? ==>
      var after := SlotsAfterSimple(slots, sql, bind, pdo);
      Single in after && after[Single].Some? &&
      SimpleExecuteResult(sql, bind, pdo).value == Summary(pdo.lastInsertId, pdo.rowCount(after[Single].value))
  {
    ExpandFailsIffEmptyList(sql, bind);
  }

  /** `simpleFetch` and `simpleExecute` touch slot "single" only, and fill it whenever the connection prepared a statement. */
  lemma SimpleTouchesOnlySingle(slots: map<string, Option<Handle>>, sql: string, bind: PhpArray, pdo: Connection)
    ensures var after := SlotsAfterSimple(slots, sql, bind, pdo);
      after.Keys <= slots.Keys + {Single} &&
      (forall k :: k in slots && k != Single ==> k in after && after[k] == slots[k]) &&
      (Compile(sql, bind, pdo).Success? ==> Single in after && after[Single] == Some(Compile(sql, bind, pdo).value.1))
  {
  }

  /**
   * `simpleFetchOne` fails with an UnexpectedResultException exactly when
   * `simpleFetch` returned more than one row, gives null exactly when it
   * returned none and the row exactly when it returned one; any other failure
   * is the one of `simpleFetch`.
   */
  lemma SimpleFetchOneCardinality(sql: string, bind: PhpArray, pdo: Connection)
    ensures var rows := SimpleFetchResult(sql, bind, pdo); var r := SimpleFetchOneResult(sql, bind, pdo);
      (r.Failure? && r.error.UnexpectedResult? <==> rows.Success? && |rows.value| > 1) &&
      (r == Success(None) <==> rows == Success([])) &&
      (rows.Success? && |rows.value| == 1 ==> r == Success(Some(rows.value[0]))) &&
      (rows.Failure? ==> r == Failure(rows.error)) &&
      (r.Failure? && r.error.UnexpectedResult? ==> r.error == UnexpectedResult(sql, ToMap(bind), rows.value))
  {
    SimpleFetchFailures(sql, bind, pdo);
  }

  /** The PDO driver object; its state is the table of prepared statements. */
  class PdoDriver {
    /** Statement handles by identifier; `clear` leaves a null (None) in the slot. */
    var preparedStatements: map<string, Option<Handle>>

    constructor ()
      ensures preparedStatements == map[]
    {
      preparedStatements := map[];
    }

    /** The live statement in slot `identifier`, if there is one. */
    function Statement(identifier: string): (h: Option<Handle>)
      reads this
      ensures h.Some? <==> identifier in preparedStatements && preparedStatements[identifier].Some?
      ensures h.Some? ==> preparedStatements[identifier] == h
    {
      if identifier in preparedStatements then preparedStatements[identifier] else None
    }

    /** `prepare($sql, $identifier)`: the new statement replaces slot `identifier` only. */
    method Prepare(sql: string, identifier: string, pdo: Connection) returns (r: Outcome<Failure>)
      modifies this
      ensures match pdo.prepare(sql)
        case Success(h) => r == Pass && preparedStatements == old(preparedStatements)[identifier := Some(h)]
        case Failure(cause) => r == Fail(PrepareFailure(sql, cause)) && preparedStatements == old(preparedStatements)
    {
      match pdo.prepare(sql)
      case Success(h) =>
        preparedStatements := preparedStatements[identifier := Some(h)];
        r := Pass;
      case Failure(cause) =>
        r := Fail(PrepareFailure(sql, cause));
    }

    /** `clear($identifier)`: slot `identifier` becomes null, every other slot stays. */
    method Clear(identifier: string)
      modifies this
      ensures preparedStatements == old(preparedStatements)[identifier := None]
      ensures Statement(identifier) == None
    {
      preparedStatements := preparedStatements[identifier := None];
    }

    /**
     * `execute($bind, $identifier)`: runs the statement of the slot and reports
     * the last insert id and its row count; the table is left as it was, so
     * the statement can be run again.
     */
    method Execute(bind: Bind, identifier: string, pdo: Connection) returns (r: Result<Summary, Failure>)
      ensures Statement(identifier) == None ==> r == Failure(NoStatement(identifier))
      ensures Statement(identifier).Some? ==> r == ExecuteWith(pdo, Statement(identifier).value, bind)
      ensures r.Success? ==>
        Statement(identifier).Some? && r.value == Summary(pdo.lastInsertId, pdo.rowCount(Statement(identifier).value))
    {
      var slot := Statement(identifier);
      if slot == None {
        return Failure(NoStatement(identifier));
      }
      var h := slot.value;
      match pdo.execute(h, bind)
      case Fail(cause) =>
        r := Failure(QueryException(ExecuteException, None, Some(bind), Some(ConnectionError(cause))));
      case Pass =>
        r := Success(Summary(pdo.lastInsertId, pdo.rowCount(h)));
    }

    /** `fetch($bind, $identifier)`: runs the statement of the slot and returns all rows, never `false`. */
    method Fetch(bind: Bind, identifier: string, pdo: Connection) returns (r: Result<seq<Row>, Failure>)
      ensures Statement(identifier) == None ==> r == Failure(NoStatement(identifier))
      ensures Statement(identifier).Some? ==> r == FetchWith(pdo, Statement(identifier).value, bind)
      ensures (Statement(identifier).Some? && pdo.execute(Statement(identifier).value, bind).Pass? &&
               pdo.fetchAll(Statement(identifier).value) == None) ==> r == Success([])
    {
      var slot := Statement(identifier);
      if slot == None {
        return Failure(NoStatement(identifier));
      }
      var h := slot.value;
      match pdo.execute(h, bind)
      case Fail(cause) =>
        r := Failure(QueryException(PrepareException, None, Some(bind), Some(ConnectionError(cause))));
      case Pass =>
        var fetched := pdo.fetchAll(h);
        var rows: seq<Row> := [];
        if fetched.Some? {
          rows := fetched.value;
        }
        r := Success(rows);
    }

    /** `simpleFetch($sql, $bind)`: expand, prepare into slot "single", fetch; every exception is rethrown wrapped. */
    method SimpleFetch(sql: string, bind: PhpArray, pdo: Connection) returns (r: Result<seq<Row>, Failure>)
      modifies this
      ensures r == SimpleFetchResult(sql, bind, pdo)
      ensures preparedStatements == SlotsAfterSimple(old(preparedStatements), sql, bind, pdo)
    {
      var query := PrepareBind(sql, bind);
      if query.Failure? {
        return Failure(Wrap(SimpleQueryException, sql, bind, query.error));
      }
      var prepared := Prepare(query.value.sql, Single, pdo);
      if prepared.Fail? {
        return Failure(Wrap(SimpleQueryException, sql, bind, prepared.error));
      }
      var rows := Fetch(query.value.bind, Single, pdo);
      if rows.Failure? {
        return Failure(Wrap(SimpleQueryException, sql, bind, rows.error));
      }
      r := rows;
    }

    /** `simpleFetchOne($sql, $bind)`: `simpleFetch`, then the cardinality check. */
    method SimpleFetchOne(sql: string, bind: PhpArray, pdo: Connection) returns (r: Result<Option<Row>, Failure>)
      modifies this
      ensures r == SimpleFetchOneResult(sql, bind, pdo)
      ensures preparedStatements == SlotsAfterSimple(old(preparedStatements), sql, bind, pdo)
    {
      var rows := SimpleFetch(sql, bind, pdo);
      if rows.Failure? {
        return Failure(rows.error);
      }
      r := SelectOne(sql, bind, rows.value);
    }

    /** `simpleExecute($sql, $bind)`: expand, prepare into slot "single", execute; every exception is rethrown wrapped. */
    method SimpleExecute(sql: string, bind: PhpArray, pdo: Connection) returns (r: Result<Summary, Failure>)
      modifies this
      ensures r == SimpleExecuteResult(sql, bind, pdo)
      ensures preparedStatements == SlotsAfterSimple(old(preparedStatements), sql, bind, pdo)
    {
      var query := PrepareBind(sql, bind);
      if query.Failure? {
        return Failure(Wrap(SimpleExecuteException, sql, bind, query.error));
      }
      var prepared := Prepare(query.value.sql, Single, pdo);
      if prepared.Fail? {
        return Failure(Wrap(SimpleExecuteException, sql, bind, prepared.error));
      }
      var summary := Execute(query.value.bind, Single, pdo);
      if summary.Failure? {
        return Failure(Wrap(SimpleExecuteException, sql, bind, summary.error));
      }
      r := summary;
    }
  }
}
