/**
 * The environment table: variables stored under upper-cased keys, each with
 * an "important" flag that locks it against being overwritten, and keys
 * checked against `^[A-Z1-9_]*$`. The source keeps the table in a static
 * property; here it is the one `Environment` object the caller holds.
 */
module Environment {
  import opened Results
  import opened PhpValues
  import opened Text

  /** One entry of the table: `['important' => ..., 'value' => ...]`. */
  datatype Variable = Variable(important: bool, value: Value)

  /** The table itself. */
  type Table = map<string, Variable>

  /**
   * The `EnvironmentException` messages, and the `TypeError` that a
   * non-string key raises when `import` passes it on to `set`.
   */
  datatype EnvError =
    | EnvVarNotFound               // "ENV_VAR_NOT_FOUND"
    | CannotOverwriteImportantEnv  // "CANNOT_OVERWRITE_IMPORTANT_ENV"
    | InvalidEnvKey                // "INVALID_ENV_KEY"
    | KeyNotString                 // TypeError: an integer array key given for `string $key`

  /** A character of the class `[A-Z1-9_]` (note: no '0'). */
  predicate KeyChar(c: char) {
    'A' <= c <= 'Z' || '1' <= c <= '9' || c == '_'
  }

  predicate AllKeyChars(k: string) {
    forall i :: 0 <= i < |k| ==> KeyChar(k[i])
  }

  /**
   * `validateKey`: the key matches `/^([A-Z1-9_]*)$/u`. Without the D
   * modifier PCRE's `$` also matches just before a final newline, so one
   * trailing "\n" is accepted too.
   */
  predicate ValidKey(k: string)
    ensures ValidKey(k) ==> forall i :: 0 <= i < |k| ==> KeyChar(k[i]) || (i == |k| - 1 && k[i] == '\n')
  {
    AllKeyChars(k) || (|k| > 0 && k[|k| - 1] == '\n' && AllKeyChars(k[..|k| - 1]))
  }

  /**
   * What `set($key, $value, $important)` does to the table: upper-case the
   * key; refuse to overwrite an important entry; then refuse an invalid key;
   * otherwise store the entry.
   */
  function Assign(table: Table, key: string, value: Value, important: bool): Result<Table, EnvError> {
    var k := Upper(key);
    if k in table && table[k].important then Failure(CannotOverwriteImportantEnv)
    else if !ValidKey(k) then Failure(InvalidEnvKey)
    else Success(table[k := Variable(important, value)])
  }

  /** The table and the outcome after some of the pairs of an `import`. */
  datatype ImportRun = ImportRun(table: Table, outcome: Outcome<EnvError>)

  /** The importer's array: its keys as PHP holds them, in iteration order. */
  type Imported = seq<(Key, Value)>

  /** One pair of an `import`: an integer key fails before `set` is entered. */
  function ImportPair(table: Table, pair: (Key, Value), important: bool): ImportRun {
    if pair.0.IntKey? then ImportRun(table, Fail(KeyNotString))
    else
      match Assign(table, pair.0.s, pair.1, important)
      case Failure(e) => ImportRun(table, Fail(e))
      case Success(t) => ImportRun(t, Pass)
  }

  /** `import` over the first `n` pairs: `set` on each in order, stopping at the first exception. */
  function ImportPrefix(table: Table, pairs: Imported, n: nat, important: bool): ImportRun
    requires n <= |pairs|
  {
    if n == 0 then ImportRun(table, Pass)
    else
      var run := ImportPrefix(table, pairs, n - 1, important);
      if run.outcome.Fail? then run else ImportPair(run.table, pairs[n - 1], important)
  }

  function ImportAll(table: Table, pairs: Imported, important: bool): ImportRun {
    ImportPrefix(table, pairs, |pairs|, important)
  }

  /** While nothing has failed, one more pair is one more `ImportPair`. */
  lemma ImportPrefixNext(table: Table, pairs: Imported, i: nat, important: bool)
    requires i < |pairs| && ImportPrefix(table, pairs, i, important).outcome.Pass?
    ensures ImportPrefix(table, pairs, i + 1, important) ==
      ImportPair(ImportPrefix(table, pairs, i, important).table, pairs[i], important)
  {
  }

  /** Once an `import` has failed, the later pairs change nothing. */
  lemma {:induction false} ImportFailureSticks(table: Table, pairs: Imported, n: nat, m: nat, important: bool)
    requires n <= m <= |pairs| && ImportPrefix(table, pairs, n, important).outcome.Fail?
    ensures ImportPrefix(table, pairs, m, important) == ImportPrefix(table, pairs, n, important)
    decreases m
  {
    if m > n {
      ImportFailureSticks(table, pairs, n, m - 1, important);
    }
  }

  /**
   * `set` fails exactly as the source orders its checks: an existing
   * important entry first, the key's validity second; success stores the
   * entry under the upper-cased key and leaves every other key as it was.
   */
  lemma AssignOutcome(table: Table, key: string, value: Value, important: bool)
    ensures var k := Upper(key); var r := Assign(table, key, value, important);
      (r == Failure(CannotOverwriteImportantEnv) <==> k in table && table[k].important) &&
      (r == Failure(InvalidEnvKey) <==> !(k in table && table[k].important) && !ValidKey(k)) &&
      (r.Success? <==> !(k in table && table[k].important) && ValidKey(k)) &&
      (r.Success? ==> k in r.value && r.value[k] == Variable(important, value) && r.value.Keys == table.Keys + {k}) &&
      (r.Success? ==> forall other :: other in table && other != k ==> r.value[other] == table[other])
  {
  }

  /** An important entry is never overwritten by `set`: the table either keeps it or the call fails. */
  lemma AssignKeepsImportant(table: Table, key: string, value: Value, important: bool, k: string)
    requires k in table && table[k].important
    ensures var r := Assign(table, key, value, important);
      r.Success? ==> k in r.value && r.value[k] == table[k]
  {
  }

  /** An important entry survives any `import`, whatever pairs it brings and however far it gets. */
  lemma {:induction false} ImportKeepsImportant(table: Table, pairs: Imported, n: nat, important: bool, k: string)
    requires n <= |pairs| && k in table && table[k].important
    ensures var t := ImportPrefix(table, pairs, n, important).table; k in t && t[k] == table[k]
  {
    if n > 0 {
      ImportKeepsImportant(table, pairs, n - 1, important, k);
      var run := ImportPrefix(table, pairs, n - 1, important);
      if run.outcome.Pass? && pairs[n - 1].0.StrKey? {
        AssignKeepsImportant(run.table, pairs[n - 1].0.s, pairs[n - 1].1, important, k);
      }
    }
  }

  /**
   * A failed `import` stopped at one pair: the pairs before it were all
   * stored, the table is the one they left, and that pair's `set` (or the
   * key's type) is what failed.
   */
  lemma {:induction false} ImportStopsAtFailure(table: Table, pairs: Imported, n: nat, important: bool)
    requires n <= |pairs| && ImportPrefix(table, pairs, n, important).outcome.Fail?
    ensures var run := ImportPrefix(table, pairs, n, important);
      exists j :: 0 <= j < n && ImportPrefix(table, pairs, j, important) == ImportRun(run.table, Pass) &&
        ImportPair(run.table, pairs[j], important) == run
  {
    var run := ImportPrefix(table, pairs, n, important);
    var before := ImportPrefix(table, pairs, n - 1, important);
    if before.outcome.Fail? {
      ImportStopsAtFailure(table, pairs, n - 1, important);
      var j :| 0 <= j < n - 1 && ImportPrefix(table, pairs, j, important) == ImportRun(before.table, Pass) &&
        ImportPair(before.table, pairs[j], important) == before;
      assert ImportPrefix(table, pairs, j, important) == ImportRun(run.table, Pass);
    } else {
      assert ImportPrefix(table, pairs, n - 1, important) == ImportRun(run.table, Pass);
    }
  }

  /** A key that matches the pattern is already upper-case, so `set` stores it as given. */
  lemma ValidKeyIsUpper(k: string)
    requires ValidKey(k)
    ensures Upper(k) == k
  {
    var u := Upper(k);
    UpperAt(k);
    forall i | 0 <= i < |k| ensures u[i] == k[i] {
      if !AllKeyChars(k) && i < |k| - 1 {
        assert k[..|k| - 1][i] == k[i];
      }
      assert KeyChar(k[i]) || k[i] == '\n';
    }
    assert u == k;
  }

  /** Upper-casing a key with a lower-case letter changes it: the entry lands under another key. */
  lemma LowerCaseKeyMoves(key: string, i: int)
    requires 0 <= i < |key| && 'a' <= key[i] <= 'z'
    ensures Upper(key) != key
  {
    UpperAt(key);
    assert Upper(key)[i] != key[i];
  }

  /**
   * After a successful `set("foo", ...)` on a table without "foo", there is
   * still no "foo": the value sits under "FOO", and `get("foo")` gives the
   * default.
   */
  lemma LowerCaseKeyNotStored(table: Table, key: string, value: Value, important: bool, i: int)
    requires 0 <= i < |key| && 'a' <= key[i] <= 'z' && key !in table
    ensures var r := Assign(table, key, value, important);
      r.Success? ==> key !in r.value && Upper(key) in r.value
  {
    LowerCaseKeyMoves(key, i);
  }

  /** Examples of the key pattern: no '0', no '-', no lower case; the empty key passes, and so does a final newline. */
  lemma KeyExamples()
    ensures ValidKey("") && ValidKey("APP_ENV") && ValidKey("DB_HOST_2") && ValidKey("A\n")
    ensures !ValidKey("A0") && !ValidKey("A-B") && !ValidKey("app") && !ValidKey("A\n\n")
  {
    assert "A0"[1] == '0';
    assert "A-B"[1] == '-';
    assert "app"[0] == 'a';
    assert "A\n"[..1] == "A";
    assert "A\n\n"[..2][1] == '\n';
  }

  /** Every key of the table matches the pattern. */
  ghost predicate ValidTable(table: Table) {
    forall k :: k in table ==> ValidKey(k)
  }

  /** Every key of the table is its own upper-case form. */
  ghost predicate UpperKeys(table: Table) {
    forall k :: k in table ==> Upper(k) == k
  }

  /** In a table whose keys all match the pattern, every key is its own upper-case form. */
  lemma ValidTableUpper(table: Table)
    requires ValidTable(table)
    ensures UpperKeys(table)
  {
    forall k | k in table ensures Upper(k) == k {
      ValidKeyIsUpper(k);
    }
  }

  /** `set` and therefore `import` only ever store keys that match the pattern. */
  lemma {:induction false} ImportKeepsKeysValid(table: Table, pairs: Imported, n: nat, important: bool)
    requires n <= |pairs| && ValidTable(table)
    ensures ValidTable(ImportPrefix(table, pairs, n, important).table)
  {
    if n > 0 {
      ImportKeepsKeysValid(table, pairs, n - 1, important);
    }
  }

  /** The environment object; its state is the variable table. */
  class Environment {
    var variables: Table

    ghost predicate Valid()
      reads this
    {
      ValidTable(variables)
    }

    constructor ()
      ensures Valid() && variables == map[]
    {
      variables := map[];
    }

    /** `has($key)`: the key is looked up exactly as given, without upper-casing. */
    function Has(key: string): (r: bool)
      reads this
      ensures r <==> key in variables
    {
      key in variables
    }

    /** `isImportant($key)`: the flag of an existing entry; ENV_VAR_NOT_FOUND otherwise. */
    function IsImportant(key: string): (r: Result<bool, EnvError>)
      reads this
      ensures r.Failure? <==> !Has(key)
      ensures r.Failure? ==> r.error == EnvVarNotFound
      ensures r.Success? ==> r.value == variables[key].important
    {
      if !Has(key) then Failure(EnvVarNotFound) else Success(variables[key].important)
    }

    /** `get($key, $default)`: the stored value (even a stored null) or, for an absent key, the default. */
    function Get(key: string, default: Value): (v: Value)
      reads this
      ensures Has(key) ==> v == variables[key].value
      ensures !Has(key) ==> v == default
    {
      if Has(key) then variables[key].value else default
    }

    /** `set($key, $value, $important)`: the table becomes what `Assign` gives, or stays as it was on an exception. */
    method Set(key: string, value: Value, important: bool) returns (r: Outcome<EnvError>)
      requires Valid()
      modifies this
      ensures Valid() && UpperKeys(variables)
      ensures match Assign(old(variables), key, value, important)
        case Failure(e) => r == Fail(e) && variables == old(variables)
        case Success(t) => r == Pass && variables == t
    {
      ValidTableUpper(variables);
      var k := Upper(key);
      if Has(k) {
        var important' := IsImportant(k);
        if important'.value {
          return Fail(CannotOverwriteImportantEnv);
        }
      }
      if !ValidKey(k) {
        return Fail(InvalidEnvKey);
      }
      variables := variables[k := Variable(important, value)];
      ValidTableUpper(variables);
      r := Pass;
    }

    /** One iteration of `import`: the TypeError of an integer key, or `set` on the pair. */
    method SetPair(pair: (Key, Value), important: bool) returns (r: Outcome<EnvError>)
      requires Valid()
      modifies this
      ensures Valid() && UpperKeys(variables)
      ensures ImportPair(old(variables), pair, important) == ImportRun(variables, r)
    {
      if pair.0.IntKey? {
        ValidTableUpper(variables);
        return Fail(KeyNotString);
      }
      r := Set(pair.0.s, pair.1, important);
    }

    /** `import($importer, $important)`: `set` on each pair in order, stopping at the first exception. */
    method Import(pairs: Imported, important: bool) returns (r: Outcome<EnvError>)
      requires Valid()
      modifies this
      ensures Valid() && UpperKeys(variables)
      ensures ImportAll(old(variables), pairs, important) == ImportRun(variables, r)
    {
      ghost var table := variables;
      ValidTableUpper(variables);
      r := Pass;
      var i := 0;
      // The loop ends at the first exception, which `import` lets propagate.
      while i < |pairs| && r.Pass?
        invariant 0 <= i <= |pairs| && Valid() && UpperKeys(variables)
        invariant ImportPrefix(table, pairs, i, important) == ImportRun(variables, r)
      {
        ImportPrefixNext(table, pairs, i, important);
        r := SetPair(pairs[i], important);
        i := i + 1;
      }
      if r.Fail? {
        ImportFailureSticks(table, pairs, i, |pairs|, important);
      }
    }
  }
}
