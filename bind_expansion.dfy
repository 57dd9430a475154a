/**
 * What `PdoDriver::prepareBind` computes: every list-valued bind parameter
 * `name` becomes one scalar parameter `name_<key>` per element, and every
 * textual `:name` in the SQL becomes the list of the new placeholders.
 */
module BindExpansion {
  import opened Results
  import opened PhpValues
  import opened Text
  import opened DataStore

  /** The placeholder token `:name`. */
  function Placeholder(name: string): string {
    ":" + name
  }

  /** The name `name_<id>` given to element `id` of list parameter `name`. */
  function ElementName(name: string, id: string): string {
    name + "_" + id
  }

  lemma ElementNameInjective(name: string, a: string, b: string)
    requires ElementName(name, a) == ElementName(name, b)
    ensures a == b
  {
    assert a == ElementName(name, a)[|name| + 1..];
    assert b == ElementName(name, b)[|name| + 1..];
  }

  /** The placeholders that replace `:name`, one per element, in element order. */
  function Tokens(name: string, items: PhpArray): (tokens: seq<string>)
    ensures |tokens| == |items|
    ensures forall e :: 0 <= e < |items| ==> tokens[e] == Placeholder(ElementName(name, items[e].0))
  {
    if items == [] then []
    else Tokens(name, items[..|items| - 1]) + [Placeholder(ElementName(name, items[|items| - 1].0))]
  }

  function ElementNames(name: string, items: PhpArray): set<string> {
    set e | 0 <= e < |items| :: ElementName(name, items[e].0)
  }

  /** The bind map after `$bind[name_<id>] = element` for every element, in order. */
  function AddElements(bind: Bind, name: string, items: PhpArray): (r: Bind)
    ensures r.Keys == bind.Keys + ElementNames(name, items)
  {
    if items == [] then bind
    else
      var last := items[|items| - 1];
      var r0 := AddElements(bind, name, items[..|items| - 1]);
      assert ElementNames(name, items) == ElementNames(name, items[..|items| - 1]) + {ElementName(name, last.0)} by {
        forall k | k in ElementNames(name, items)
          ensures k in ElementNames(name, items[..|items| - 1]) + {ElementName(name, last.0)}
        {
          var e :| 0 <= e < |items| && ElementName(name, items[e].0) == k;
          if e < |items| - 1 { assert items[..|items| - 1][e] == items[e]; }
        }
      }
      r0[ElementName(name, last.0) := last.1]
  }

  /** Adding the elements of a list is adding all but the last, then the last. */
  lemma AddElementsLast(bind: Bind, name: string, items: PhpArray)
    requires items != []
    ensures AddElements(bind, name, items) ==
      AddElements(bind, name, items[..|items| - 1])[ElementName(name, items[|items| - 1].0) := items[|items| - 1].1]
  {
  }

  /** Dropping the last pair keeps the keys distinct, and the last key differs from every other. */
  lemma DistinctKeysFront(items: PhpArray)
    requires DistinctKeys(items) && items != []
    ensures DistinctKeys(items[..|items| - 1])
    ensures forall x :: 0 <= x < |items| - 1 ==> items[x].0 != items[|items| - 1].0
  {
    var p := items[..|items| - 1];
    forall x, y | 0 <= x < y < |p| ensures p[x].0 != p[y].0 {
      assert p[x] == items[x] && p[y] == items[y];
    }
  }

  /** Each element lands under its own name. */
  lemma {:induction false} AddElementsNew(bind: Bind, name: string, items: PhpArray, e: int)
    requires DistinctKeys(items) && 0 <= e < |items|
    ensures AddElements(bind, name, items)[ElementName(name, items[e].0)] == items[e].1
  {
    var n := |items|;
    AddElementsLast(bind, name, items);
    if e < n - 1 {
      var p := items[..n - 1];
      DistinctKeysFront(items);
      assert p[e] == items[e];
      assert ElementName(name, items[e].0) != ElementName(name, items[n - 1].0) by {
        if ElementName(name, items[e].0) == ElementName(name, items[n - 1].0) {
          ElementNameInjective(name, items[e].0, items[n - 1].0);
        }
      }
      AddElementsNew(bind, name, p, e);
    }
  }

  /** Keys that are not element names keep their value. */
  lemma {:induction false} AddElementsOld(bind: Bind, name: string, items: PhpArray, k: string)
    requires k in bind && k !in ElementNames(name, items)
    ensures AddElements(bind, name, items)[k] == bind[k]
  {
    if items != [] {
      var p := items[..|items| - 1];
      assert k !in ElementNames(name, p) by {
        forall e | 0 <= e < |p| ensures ElementName(name, p[e].0) != k {
          assert items[e] == p[e];
        }
      }
      AddElementsOld(bind, name, p, k);
    }
  }

  /** One iteration of the outer loop of `prepareBind`, on entry `entry` of the original bind array. */
  function Step(q: Query, entry: (string, Value)): Result<Query, Failure> {
    match entry.1
    case Arr(items) =>
      if items == [] then Failure(QueryException(BindParamEmpty, Some(q.sql), Some(q.bind), None))
      else
        var name := entry.0;
        Success(Query(ReplaceAll(q.sql, Placeholder(name), Implode(", ", Tokens(name, items))),
                      AddElements(q.bind, name, items) - {name}))
    case _ => Success(q)
  }

  /** The SQL and bind map once the first `n` entries of the original bind array have been visited. */
  function ExpandPrefix(sql: string, bind: PhpArray, n: nat): Result<Query, Failure>
    requires n <= |bind|
  {
    if n == 0 then Success(Query(sql, ToMap(bind)))
    else
      match ExpandPrefix(sql, bind, n - 1)
      case Failure(e) => Failure(e)
      case Success(q) => Step(q, bind[n - 1])
  }

  /** Visiting one more entry applies `Step` to the query built so far. */
  lemma ExpandPrefixNext(sql: string, bind: PhpArray, i: nat)
    requires i < |bind| && ExpandPrefix(sql, bind, i).Success?
    ensures ExpandPrefix(sql, bind, i + 1) == Step(ExpandPrefix(sql, bind, i).value, bind[i])
  {
  }

  /** The result of `prepareBind($sql, $bind)`. */
  function Expand(sql: string, bind: PhpArray): Result<Query, Failure> {
    ExpandPrefix(sql, bind, |bind|)
  }

  /** Once a prefix has failed, the whole expansion fails with the same exception. */
  lemma {:induction false} ExpandPrefixFailureSticks(sql: string, bind: PhpArray, n: nat, m: nat)
    requires n <= m <= |bind| && ExpandPrefix(sql, bind, n).Failure?
    ensures ExpandPrefix(sql, bind, m) == ExpandPrefix(sql, bind, n)
    decreases m - n
  {
    if n < m {
      ExpandPrefixFailureSticks(sql, bind, n, m - 1);
    }
  }

  ghost predicate HasEmptyListBefore(bind: PhpArray, n: int) {
    exists j :: 0 <= j < n && j < |bind| && bind[j].1 == Arr([])
  }

  /** Some bind value is an empty array. */
  ghost predicate HasEmptyList(bind: PhpArray) {
    HasEmptyListBefore(bind, |bind|)
  }

  lemma {:induction false} ExpandPrefixFails(sql: string, bind: PhpArray, n: nat)
    requires n <= |bind|
    ensures ExpandPrefix(sql, bind, n).Failure? <==> HasEmptyListBefore(bind, n)
    ensures ExpandPrefix(sql, bind, n).Failure? ==>
      var err := ExpandPrefix(sql, bind, n).error;
      err.QueryException? && err.code == BindParamEmpty && err.previous == None
  {
    if n > 0 {
      ExpandPrefixFails(sql, bind, n - 1);
      if HasEmptyListBefore(bind, n - 1) {
        var j :| 0 <= j < n - 1 && j < |bind| && bind[j].1 == Arr([]);
        assert 0 <= j < n;
      } else if bind[n - 1].1 == Arr([]) {
        assert HasEmptyListBefore(bind, n);
      }
    }
  }

  /**
   * `prepareBind` throws BIND_PARAM_EMPTY exactly when some bind value is an
   * empty array, and otherwise always returns a query.
   */
  lemma ExpandFailsIffEmptyList(sql: string, bind: PhpArray)
    ensures Expand(sql, bind).Failure? <==> HasEmptyList(bind)
    ensures Expand(sql, bind).Failure? ==>
      Expand(sql, bind).error.QueryException? && Expand(sql, bind).error.code == BindParamEmpty
  {
    ExpandPrefixFails(sql, bind, |bind|);
  }

  lemma {:induction false} ExpandPrefixWithoutLists(sql: string, bind: PhpArray, n: nat)
    requires n <= |bind|
    requires forall j :: 0 <= j < |bind| ==> !bind[j].1.Arr?
    ensures ExpandPrefix(sql, bind, n) == Success(Query(sql, ToMap(bind)))
  {
    if n > 0 {
      ExpandPrefixWithoutLists(sql, bind, n - 1);
    }
  }

  /**
   * Without array values both the SQL and the bind array come back unchanged:
   * every pair of the bind array is in the result with its value, and nothing else.
   */
  lemma ExpandWithoutLists(sql: string, bind: PhpArray)
    requires DistinctKeys(bind)
    requires forall j :: 0 <= j < |bind| ==> !bind[j].1.Arr?
    ensures Expand(sql, bind).Success?
    ensures Expand(sql, bind).value.sql == sql
    ensures Expand(sql, bind).value.bind.Keys == Keys(bind)
    ensures forall j :: 0 <= j < |bind| ==> Expand(sql, bind).value.bind[bind[j].0] == bind[j].1
  {
    ExpandPrefixWithoutLists(sql, bind, |bind|);
    forall j | 0 <= j < |bind| ensures ToMap(bind)[bind[j].0] == bind[j].1 {
      ToMapLookup(bind, j);
    }
  }

  lemma {:induction false} ExpandPrefixSingleList(sql: string, bind: PhpArray, j: nat, n: nat)
    requires j < |bind| && n <= |bind|
    requires bind[j].1.Arr? && bind[j].1.entries != []
    requires forall k :: 0 <= k < |bind| && k != j ==> !bind[k].1.Arr?
    ensures ExpandPrefix(sql, bind, n).Success?
    ensures ExpandPrefix(sql, bind, n).value.sql ==
      if n <= j then sql
      else ReplaceAll(sql, Placeholder(bind[j].0), Implode(", ", Tokens(bind[j].0, bind[j].1.entries)))
  {
    if n > 0 {
      ExpandPrefixSingleList(sql, bind, j, n - 1);
    }
  }

  /**
   * With one list parameter `name`, the SQL that comes back is the original SQL
   * cut at every occurrence of the substring `:name` and glued together again
   * with the element placeholders `:name_<key>`, in element order, joined by ", ".
   */
  lemma ExpandSingleList(sql: string, bind: PhpArray, j: nat)
    requires j < |bind| && bind[j].1.Arr? && bind[j].1.entries != []
    requires forall k :: 0 <= k < |bind| && k != j ==> !bind[k].1.Arr?
    ensures Expand(sql, bind).Success?
    ensures Expand(sql, bind).value.sql ==
      Implode(Implode(", ", Tokens(bind[j].0, bind[j].1.entries)), Split(sql, Placeholder(bind[j].0)))
  {
    ExpandPrefixSingleList(sql, bind, j, |bind|);
    ReplaceAllIsImplodeOfSplit(sql, Placeholder(bind[j].0), Implode(", ", Tokens(bind[j].0, bind[j].1.entries)));
  }

  /**
   * The SQL once the first `n` entries have been visited: each list, in bind
   * order, cuts the SQL built so far at every `:name` and glues the pieces
   * together again with its placeholders joined by ", "; scalars leave it alone.
   */
  function RewrittenSql(sql: string, bind: PhpArray, n: nat): string
    requires n <= |bind|
  {
    if n == 0 then sql
    else
      var s := RewrittenSql(sql, bind, n - 1);
      var entry := bind[n - 1];
      if entry.1.Arr? then Implode(Implode(", ", Tokens(entry.0, entry.1.entries)), Split(s, Placeholder(entry.0)))
      else s
  }

  /** While the loop has not thrown, its SQL is `RewrittenSql`. */
  lemma {:induction false} ExpandPrefixSql(sql: string, bind: PhpArray, n: nat)
    requires n <= |bind| && ExpandPrefix(sql, bind, n).Success?
    ensures ExpandPrefix(sql, bind, n).value.sql == RewrittenSql(sql, bind, n)
  {
    if n > 0 {
      assert ExpandPrefix(sql, bind, n - 1).Success?;
      ExpandPrefixSql(sql, bind, n - 1);
      var entry := bind[n - 1];
      if entry.1.Arr? {
        ReplaceAllIsImplodeOfSplit(RewrittenSql(sql, bind, n - 1), Placeholder(entry.0), Implode(", ", Tokens(entry.0, entry.1.entries)));
      }
    }
  }

  /**
   * With any number of list parameters, none of them empty, the SQL that
   * comes back is the original rewritten list by list, in bind order: each
   * cuts the SQL built so far at its `:name` and rejoins it with its tokens.
   */
  lemma ExpandSql(sql: string, bind: PhpArray)
    requires !HasEmptyList(bind)
    ensures Expand(sql, bind).Success?
    ensures Expand(sql, bind).value.sql == RewrittenSql(sql, bind, |bind|)
  {
    ExpandPrefixSucceeds(sql, bind, |bind|);
    ExpandPrefixSql(sql, bind, |bind|);
  }

  /** Lists whose placeholder occurs nowhere in the SQL leave every prefix of the rewrite equal to the SQL. */
  lemma {:induction false} RewrittenSqlUntouched(sql: string, bind: PhpArray, n: nat)
    requires n <= |bind|
    requires forall j :: 0 <= j < |bind| && bind[j].1.Arr? ==> Free(sql, Placeholder(bind[j].0))
    ensures RewrittenSql(sql, bind, n) == sql
  {
    if n > 0 {
      RewrittenSqlUntouched(sql, bind, n - 1);
      var entry := bind[n - 1];
      if entry.1.Arr? {
        var glue := Implode(", ", Tokens(entry.0, entry.1.entries));
        ReplaceAllIsImplodeOfSplit(sql, Placeholder(entry.0), glue);
        ReplaceAllAbsent(sql, Placeholder(entry.0), glue);
      }
    }
  }

  /**
   * When no list's `:name` occurs in the SQL, `prepareBind` returns the SQL
   * unchanged, however many lists the bind array holds.
   */
  lemma ExpandSqlUntouched(sql: string, bind: PhpArray)
    requires !HasEmptyList(bind)
    requires forall j :: 0 <= j < |bind| && bind[j].1.Arr? ==> Free(sql, Placeholder(bind[j].0))
    ensures Expand(sql, bind).Success? && Expand(sql, bind).value.sql == sql
  {
    ExpandSql(sql, bind);
    RewrittenSqlUntouched(sql, bind, |bind|);
  }

  /**
   * A generated name can hit a scalar key: element 0 of list `a` is bound as
   * `a_0` and silently replaces the scalar `a_0 => 2`.
   */
  lemma GeneratedNameOverwritesScalar()
    ensures Expand("x", [("a", Arr([("0", Int(1))])), ("a_0", Int(2))]) == Success(Query("x", map["a_0" := Int(1)]))
  {
    var bind := [("a", Arr([("0", Int(1))])), ("a_0", Int(2))];
    var first := Success(Query("x", map["a_0" := Int(1)]));
    OverwriteStart(bind);
    OverwriteStep(ToMap(bind));
    assert ExpandPrefix("x", bind, 1) == first;
    assert ExpandPrefix("x", bind, 2) == Step(first.value, bind[1]);
  }

  lemma OverwriteStart(bind: PhpArray)
    requires bind == [("a", Arr([("0", Int(1))])), ("a_0", Int(2))]
    ensures ToMap(bind) == map["a" := Arr([("0", Int(1))]), "a_0" := Int(2)]
  {
    assert bind[..1] == [bind[0]] && bind[..1][..0] == [];
  }

  lemma OverwriteStep(m: Bind)
    requires m == map["a" := Arr([("0", Int(1))]), "a_0" := Int(2)]
    ensures Step(Query("x", m), ("a", Arr([("0", Int(1))]))) == Success(Query("x", map["a_0" := Int(1)]))
  {
    var items := [("0", Int(1))];
    assert Placeholder("a") == ":a";
    ReplaceAllWithoutLead("x", ":a", Implode(", ", Tokens("a", items)));
    assert items[..0] == [];
    assert ElementName("a", "0") == "a_0";
    assert AddElements(m, "a", items) == m["a_0" := Int(1)];
    assert m["a_0" := Int(1)] - {"a"} == map["a_0" := Int(1)];
  }

  /**
   * Matching is by substring: expanding `:id` also rewrites the front of
   * `:id_type`, which was meant to be a different placeholder.
   */
  lemma PrefixCollision()
    ensures Expand(":id_type", [("id", Arr([("0", Int(1)), ("1", Int(2))])), ("id_type", Int(3))])
      == Success(Query(":id_0, :id_1_type", map["id_0" := Int(1), "id_1" := Int(2), "id_type" := Int(3)]))
  {
    var bind := [("id", Arr([("0", Int(1)), ("1", Int(2))])), ("id_type", Int(3))];
    var first := Success(Query(":id_0, :id_1_type", map["id_0" := Int(1), "id_1" := Int(2), "id_type" := Int(3)]));
    CollisionStart(bind);
    CollisionStep(ToMap(bind));
    assert ExpandPrefix(":id_type", bind, 1) == first;
    assert ExpandPrefix(":id_type", bind, 2) == Step(first.value, bind[1]);
  }

  lemma CollisionStart(bind: PhpArray)
    requires bind == [("id", Arr([("0", Int(1)), ("1", Int(2))])), ("id_type", Int(3))]
    ensures ToMap(bind) == map["id" := Arr([("0", Int(1)), ("1", Int(2))]), "id_type" := Int(3)]
  {
    assert bind[..1] == [bind[0]] && bind[..1][..0] == [];
  }

  lemma CollisionStep(m: Bind)
    requires m == map["id" := Arr([("0", Int(1)), ("1", Int(2))]), "id_type" := Int(3)]
    ensures Step(Query(":id_type", m), ("id", Arr([("0", Int(1)), ("1", Int(2))])))
      == Success(Query(":id_0, :id_1_type", map["id_0" := Int(1), "id_1" := Int(2), "id_type" := Int(3)]))
  {
    var items := [("0", Int(1)), ("1", Int(2))];
    assert Step(Query(":id_type", m), ("id", Arr(items))) == Success(Query(
      ReplaceAll(":id_type", Placeholder("id"), Implode(", ", Tokens("id", items))), AddElements(m, "id", items) - {"id"}));
    assert Placeholder("id") == ":id";
    CollisionTokens();
    CollisionSql();
    CollisionBind(m);
  }

  lemma CollisionTokens()
    ensures Implode(", ", Tokens("id", [("0", Int(1)), ("1", Int(2))])) == ":id_0, :id_1"
  {
    var items := [("0", Int(1)), ("1", Int(2))];
    assert Placeholder(ElementName("id", "0")) == ":id_0" && Placeholder(ElementName("id", "1")) == ":id_1";
    assert Tokens("id", items) == [":id_0", ":id_1"];
    assert Implode(", ", [":id_0", ":id_1"]) == ":id_0, :id_1";
  }

  lemma CollisionSql()
    ensures ReplaceAll(":id_type", ":id", ":id_0, :id_1") == ":id_0, :id_1_type"
  {
    var s := ":id_type";
    assert s[..3] == ":id" && s[3..] == "_type";
    ReplaceAllWithoutLead("_type", ":id", ":id_0, :id_1");
  }

  lemma CollisionBind(m: Bind)
    requires m == map["id" := Arr([("0", Int(1)), ("1", Int(2))]), "id_type" := Int(3)]
    ensures AddElements(m, "id", [("0", Int(1)), ("1", Int(2))]) - {"id"}
      == map["id_0" := Int(1), "id_1" := Int(2), "id_type" := Int(3)]
  {
    CollisionAdd(m);
    assert "id_0" != "id" && "id_1" != "id";
  }

  lemma CollisionAdd(m: Bind)
    ensures AddElements(m, "id", [("0", Int(1)), ("1", Int(2))]) == m["id_0" := Int(1)]["id_1" := Int(2)]
  {
    var items := [("0", Int(1)), ("1", Int(2))];
    assert items[..1] == [("0", Int(1))] && items[..1][..0] == [];
    assert ElementName("id", "0") == "id_0" && ElementName("id", "1") == "id_1";
    assert AddElements(m, "id", items[..1]) == m["id_0" := Int(1)];
  }

  /** The name of element `e` of the list at position `j` of the bind array. */
  function GenKey(bind: PhpArray, j: int, e: int): string
    requires 0 <= j < |bind| && bind[j].1.Arr? && 0 <= e < |bind[j].1.entries|
  {
    ElementName(bind[j].0, bind[j].1.entries[e].0)
  }

  /** A PHP bind array: its keys are distinct, and so are the keys of each list in it. */
  ghost predicate WellFormed(bind: PhpArray) {
    && DistinctKeys(bind)
    && forall j :: 0 <= j < |bind| && bind[j].1.Arr? ==> DistinctKeys(bind[j].1.entries)
  }

  /**
   * No generated name `name_<key>` equals a key of the bind array, and no two
   * lists generate the same name.
   */
  ghost predicate NoCollisions(bind: PhpArray) {
    && (forall j, e, k ::
          0 <= j < |bind| && bind[j].1.Arr? && 0 <= e < |bind[j].1.entries| && 0 <= k < |bind|
          ==> GenKey(bind, j, e) != bind[k].0)
    && (forall j1, e1, j2, e2 ::
          0 <= j1 < |bind| && bind[j1].1.Arr? && 0 <= e1 < |bind[j1].1.entries| &&
          0 <= j2 < |bind| && bind[j2].1.Arr? && 0 <= e2 < |bind[j2].1.entries| && j1 != j2
          ==> GenKey(bind, j1, e1) != GenKey(bind, j2, e2))
  }

  /** `key` is an original key that is still bound after `i` entries: a scalar, or not visited yet. */
  ghost predicate Kept(bind: PhpArray, i: int, key: string) {
    exists k :: 0 <= k < |bind| && (i <= k || !bind[k].1.Arr?) && bind[k].0 == key
  }

  /** `key` is the name of an element of one of the first `i` lists. */
  ghost predicate Generated(bind: PhpArray, i: int, key: string) {
    exists j, e :: 0 <= j < i && j < |bind| && bind[j].1.Arr? && 0 <= e < |bind[j].1.entries| && GenKey(bind, j, e) == key
  }

  /** The bind map `m` after the first `i` entries of `bind` were visited. */
  ghost predicate BindAfter(bind: PhpArray, i: int, m: Bind) {
    && (forall k :: 0 <= k < |bind| && (i <= k || !bind[k].1.Arr?) ==> bind[k].0 in m && m[bind[k].0] == bind[k].1)
    && (forall j, e :: 0 <= j < i && j < |bind| && bind[j].1.Arr? && 0 <= e < |bind[j].1.entries|
          ==> GenKey(bind, j, e) in m && m[GenKey(bind, j, e)] == bind[j].1.entries[e].1)
    && (forall k :: 0 <= k < i && k < |bind| && bind[k].1.Arr? ==> bind[k].0 !in m)
    && (forall key :: key in m ==> Kept(bind, i, key) || Generated(bind, i, key))
  }

  lemma BindAfterStart(bind: PhpArray)
    requires DistinctKeys(bind)
    ensures BindAfter(bind, 0, ToMap(bind))
  {
    var m := ToMap(bind);
    forall k | 0 <= k < |bind| ensures bind[k].0 in m && m[bind[k].0] == bind[k].1 {
      ToMapLookup(bind, k);
    }
    forall key | key in m ensures Kept(bind, 0, key) {
      var k :| 0 <= k < |bind| && bind[k].0 == key;
      assert 0 <= k;
    }
  }

  lemma BindAfterStepScalar(bind: PhpArray, i: nat, m: Bind)
    requires i < |bind| && !bind[i].1.Arr? && BindAfter(bind, i, m)
    ensures BindAfter(bind, i + 1, m)
  {
    forall key | key in m ensures Kept(bind, i + 1, key) || Generated(bind, i + 1, key) {
      if Kept(bind, i, key) {
        var k :| 0 <= k < |bind| && (i <= k || !bind[k].1.Arr?) && bind[k].0 == key;
        assert i + 1 <= k || !bind[k].1.Arr?;
      } else {
        var j, e :| 0 <= j < i && j < |bind| && bind[j].1.Arr? && 0 <= e < |bind[j].1.entries| && GenKey(bind, j, e) == key;
        assert 0 <= j < i + 1;
      }
    }
  }

  /** The element names of the list at position `i` clash with no original key and no other list's names. */
  lemma ListNamesApart(bind: PhpArray, i: nat)
    requires NoCollisions(bind) && i < |bind| && bind[i].1.Arr?
    ensures forall key :: key in ElementNames(bind[i].0, bind[i].1.entries) ==>
      exists e :: 0 <= e < |bind[i].1.entries| && GenKey(bind, i, e) == key
    ensures forall k :: 0 <= k < |bind| ==> bind[k].0 !in ElementNames(bind[i].0, bind[i].1.entries)
    ensures forall j, e :: 0 <= j < |bind| && j != i && bind[j].1.Arr? && 0 <= e < |bind[j].1.entries| ==>
      GenKey(bind, j, e) !in ElementNames(bind[i].0, bind[i].1.entries) && GenKey(bind, j, e) != bind[i].0
  {
    var name, items := bind[i].0, bind[i].1.entries;
    forall key | key in ElementNames(name, items) ensures exists e :: 0 <= e < |items| && GenKey(bind, i, e) == key {
      var e :| 0 <= e < |items| && ElementName(name, items[e].0) == key;
      assert GenKey(bind, i, e) == key;
    }
    forall k | 0 <= k < |bind| ensures bind[k].0 !in ElementNames(name, items) {
      forall e | 0 <= e < |items| ensures ElementName(name, items[e].0) != bind[k].0 {
        assert GenKey(bind, i, e) == ElementName(name, items[e].0);
      }
    }
    forall j, e | 0 <= j < |bind| && j != i && bind[j].1.Arr? && 0 <= e < |bind[j].1.entries|
      ensures GenKey(bind, j, e) !in ElementNames(name, items) && GenKey(bind, j, e) != name
    {
      forall e' | 0 <= e' < |items| ensures ElementName(name, items[e'].0) != GenKey(bind, j, e) {
        assert GenKey(bind, i, e') == ElementName(name, items[e'].0);
      }
      assert GenKey(bind, j, e) != bind[i].0;
    }
  }

  /** The bind map after visiting the list at position `i`. */
  function ListStep(bind: PhpArray, i: nat, m: Bind): Bind
    requires i < |bind| && bind[i].1.Arr?
  {
    AddElements(m, bind[i].0, bind[i].1.entries) - {bind[i].0}
  }

  lemma ListStepKeeps(bind: PhpArray, i: nat, m: Bind)
    requires WellFormed(bind) && NoCollisions(bind) && i < |bind| && bind[i].1.Arr? && BindAfter(bind, i, m)
    ensures forall k :: 0 <= k < |bind| && (i + 1 <= k || !bind[k].1.Arr?) ==>
      bind[k].0 in ListStep(bind, i, m) && ListStep(bind, i, m)[bind[k].0] == bind[k].1
  {
    ListNamesApart(bind, i);
    forall k | 0 <= k < |bind| && (i + 1 <= k || !bind[k].1.Arr?)
      ensures bind[k].0 in ListStep(bind, i, m) && ListStep(bind, i, m)[bind[k].0] == bind[k].1
    {
      assert k != i;
      assert bind[k].0 != bind[i].0;
      AddElementsOld(m, bind[i].0, bind[i].1.entries, bind[k].0);
    }
  }

  lemma ListStepAdds(bind: PhpArray, i: nat, m: Bind)
    requires WellFormed(bind) && NoCollisions(bind) && i < |bind| && bind[i].1.Arr? && BindAfter(bind, i, m)
    ensures forall j, e :: 0 <= j < i + 1 && j < |bind| && bind[j].1.Arr? && 0 <= e < |bind[j].1.entries| ==>
      GenKey(bind, j, e) in ListStep(bind, i, m) && ListStep(bind, i, m)[GenKey(bind, j, e)] == bind[j].1.entries[e].1
  {
    ListNamesApart(bind, i);
    var name, items := bind[i].0, bind[i].1.entries;
    forall j, e | 0 <= j < i + 1 && j < |bind| && bind[j].1.Arr? && 0 <= e < |bind[j].1.entries|
      ensures GenKey(bind, j, e) in ListStep(bind, i, m) && ListStep(bind, i, m)[GenKey(bind, j, e)] == bind[j].1.entries[e].1
    {
      if j == i {
        AddElementsNew(m, name, items, e);
        assert GenKey(bind, j, e) != bind[i].0;
      } else {
        AddElementsOld(m, name, items, GenKey(bind, j, e));
      }
    }
  }

  lemma ListStepRemoves(bind: PhpArray, i: nat, m: Bind)
    requires WellFormed(bind) && NoCollisions(bind) && i < |bind| && bind[i].1.Arr? && BindAfter(bind, i, m)
    ensures forall k :: 0 <= k < i + 1 && k < |bind| && bind[k].1.Arr? ==> bind[k].0 !in ListStep(bind, i, m)
  {
    ListNamesApart(bind, i);
  }

  lemma ListStepNothingElse(bind: PhpArray, i: nat, m: Bind)
    requires WellFormed(bind) && NoCollisions(bind) && i < |bind| && bind[i].1.Arr? && BindAfter(bind, i, m)
    ensures forall key :: key in ListStep(bind, i, m) ==> Kept(bind, i + 1, key) || Generated(bind, i + 1, key)
  {
    ListNamesApart(bind, i);
    var name, items := bind[i].0, bind[i].1.entries;
    forall key | key in ListStep(bind, i, m) ensures Kept(bind, i + 1, key) || Generated(bind, i + 1, key) {
      if key in m {
        if Kept(bind, i, key) {
          var k :| 0 <= k < |bind| && (i <= k || !bind[k].1.Arr?) && bind[k].0 == key;
          assert k != i;
          assert i + 1 <= k || !bind[k].1.Arr?;
        } else {
          var j, e :| 0 <= j < i && j < |bind| && bind[j].1.Arr? && 0 <= e < |bind[j].1.entries| && GenKey(bind, j, e) == key;
          assert 0 <= j < i + 1;
        }
      } else {
        var e :| 0 <= e < |items| && GenKey(bind, i, e) == key;
        assert Generated(bind, i + 1, key);
      }
    }
  }

  /** What one visited entry does to the bind map alone: a list is replaced by its elements. */
  function BindStep(m: Bind, entry: (string, Value)): Bind {
    if entry.1.Arr? then AddElements(m, entry.0, entry.1.entries) - {entry.0} else m
  }

  /** The bind map once the first `n` entries have been visited, leaving the empty-list exit aside. */
  function BindsAfter(bind: PhpArray, n: nat): Bind
    requires n <= |bind|
  {
    if n == 0 then ToMap(bind) else BindStep(BindsAfter(bind, n - 1), bind[n - 1])
  }

  /** While the loop has not thrown, its bind map is `BindsAfter`. */
  lemma {:induction false} ExpandPrefixBinds(sql: string, bind: PhpArray, n: nat)
    requires n <= |bind| && ExpandPrefix(sql, bind, n).Success?
    ensures ExpandPrefix(sql, bind, n).value.bind == BindsAfter(bind, n)
  {
    if n > 0 {
      assert ExpandPrefix(sql, bind, n - 1).Success?;
      ExpandPrefixBinds(sql, bind, n - 1);
    }
  }

  /** Visiting entry `n - 1` turns the bind map `BindAfter` describes for `n - 1` entries into the one for `n`. */
  lemma BindAfterStep(bind: PhpArray, n: nat)
    requires WellFormed(bind) && NoCollisions(bind)
    requires 0 < n <= |bind| && BindAfter(bind, n - 1, BindsAfter(bind, n - 1))
    ensures BindAfter(bind, n, BindsAfter(bind, n))
  {
    var i, m := n - 1, BindsAfter(bind, n - 1);
    if !bind[i].1.Arr? {
      assert BindsAfter(bind, n) == m;
      BindAfterStepScalar(bind, i, m);
    } else {
      assert BindsAfter(bind, n) == ListStep(bind, i, m);
      ListStepKeeps(bind, i, m);
      ListStepAdds(bind, i, m);
      ListStepRemoves(bind, i, m);
      ListStepNothingElse(bind, i, m);
    }
  }

  /** Without collisions, the bind map after `n` entries is the one `BindAfter` describes. */
  lemma {:induction false} BindsAfterDescribed(bind: PhpArray, n: nat)
    requires n <= |bind| && WellFormed(bind) && NoCollisions(bind)
    ensures BindAfter(bind, n, BindsAfter(bind, n))
  {
    if n == 0 {
      BindAfterStart(bind);
    } else {
      BindsAfterDescribed(bind, n - 1);
      BindAfterStep(bind, n);
    }
  }

  /** Without an empty list every prefix of the loop succeeds. */
  lemma ExpandPrefixSucceeds(sql: string, bind: PhpArray, n: nat)
    requires n <= |bind| && !HasEmptyList(bind)
    ensures ExpandPrefix(sql, bind, n).Success?
  {
    ExpandPrefixFails(sql, bind, n);
  }

  /** Without empty lists or collisions each prefix of the loop leaves the bind map `BindAfter` describes. */
  lemma ExpandPrefixBind(sql: string, bind: PhpArray, n: nat)
    requires n <= |bind|
    requires WellFormed(bind) && NoCollisions(bind) && !HasEmptyList(bind)
    ensures ExpandPrefix(sql, bind, n).Success?
    ensures BindAfter(bind, n, ExpandPrefix(sql, bind, n).value.bind)
  {
    ExpandPrefixSucceeds(sql, bind, n);
    ExpandPrefixBinds(sql, bind, n);
    BindsAfterDescribed(bind, n);
  }

  /**
   * When no generated name collides with another key, the bind map
   * `prepareBind` returns is exactly: every scalar pair of the original bind
   * array unchanged, every element of every list under `name_<key>`, no list
   * key any more, and nothing else.
   */
  lemma ExpandedBind(sql: string, bind: PhpArray)
    requires WellFormed(bind) && NoCollisions(bind) && !HasEmptyList(bind)
    ensures Expand(sql, bind).Success?
    ensures var out := Expand(sql, bind).value.bind;
      && (forall k :: 0 <= k < |bind| && !bind[k].1.Arr? ==> bind[k].0 in out && out[bind[k].0] == bind[k].1)
      && (forall j, e :: 0 <= j < |bind| && bind[j].1.Arr? && 0 <= e < |bind[j].1.entries|
            ==> GenKey(bind, j, e) in out && out[GenKey(bind, j, e)] == bind[j].1.entries[e].1)
      && (forall k :: 0 <= k < |bind| && bind[k].1.Arr? ==> bind[k].0 !in out)
      && (forall key :: key in out ==> Kept(bind, |bind|, key) || Generated(bind, |bind|, key))
  {
    ExpandPrefixBind(sql, bind, |bind|);
  }
}
