# Useful: query driver helpers, environment table and configuration container

This project models in Dafny the three self-contained parts of the Useful PHP
library that keep state in tables or build strings, and proves what they
promise.

- **`PdoDriver`** (`pdo_driver.dfy` and the modules it builds on):
  - `prepareBind` expands list-valued named parameters. It is the method
    `PrepareBind`, proved against the function `Expand` (`bind_expansion.dfy`).
  - `buildPageLimits` builds the `ORDER BY … LIMIT …` stub. It is the method
    `BuildPageLimits`, proved against `PageLimits` (`pagination.dfy`).
  - The table of prepared statements is the class `PdoDriver`, with `prepare`,
    `clear`, `execute` and `fetch`.
  - `simpleFetch`, `simpleFetchOne` and `simpleExecute` are proved against
    pure descriptions of their control flow.
  - The PDO connection is foreign code. It is modelled as a `Connection`
    value: the answers `prepare`, `execute`, `fetchAll`, `rowCount` and
    `lastInsertId` give during one call.
- **`Environment`** (`environment.dfy`) is the variable table: keys are
  upper-cased, checked against `^[A-Z1-9_]*$` and locked by the "important"
  flag. The class `Environment` holds the table. Its `Set` and `Import` are
  proved against the pure `Assign` and `ImportAll`.
- **`Configuration`** (`configuration.dfy`) is the section map:
  - `import` replaces one whole section.
  - `get` falls back to a default with `isset` semantics.
  - `Singleton` holds the lazily created instance.

The supporting modules are:

- `results.dfy`: Option, Result and Outcome.
- `php_values.dfy`: PHP values and arrays, `empty()`, and integer-like array keys.
- `text.dfy`: `strtoupper`, integer formatting, `ltrim`, `implode` and `str_replace`.
- `data_store.dfy`: binds, rows and the exceptions of the driver.

Behaviours of the code that the model keeps:

- `prepareBind` replaces every textual occurrence of `:name` with
  `str_replace`, including the front of a longer placeholder such as
  `:name_type`. `BindExpansion.PrefixCollision` shows this on a concrete input.
- Generated parameters are named after the element's key: `name_<key>`.
- The rewritten SQL holds the generated list once for each occurrence of the
  placeholder.
- A generated name that equals another key of the bind overwrites that key's
  value. `BindExpansion.GeneratedNameOverwritesScalar` shows this on a
  concrete input.
- A missing or cleared slot makes `execute`/`fetch` call a method on null.
  That raises a PHP `Error`, which no `catch (Exception $e)` intercepts, so it
  is modelled as the failure `NoStatement` and is never wrapped.

## Model

| member | source | states |
|---|---|---|
| `PdoDriver.PrepareBind` | src/DataStore/Driver/PdoDriver.php:299-327 | the loop over the original bind array, with its inner loop over a list's elements, computes exactly `Expand(sql, bind)`, including the BIND_PARAM_EMPTY exit |
| `PdoDriver.BindElements` | src/DataStore/Driver/PdoDriver.php:312-316 | the inner loop binds every element of the list under `name_<key>` and collects the matching placeholders in element order |
| `BindExpansion.Tokens` | src/DataStore/Driver/PdoDriver.php:313-317 | one placeholder `:name_<key>` per element, in element order |
| `BindExpansion.AddElements` | src/DataStore/Driver/PdoDriver.php:313-316 | adding a list's elements adds exactly the generated names to the bind's keys |
| `BindExpansion.AddElementsNew` | src/DataStore/Driver/PdoDriver.php:314 | every element of a list with distinct keys is bound under its generated name |
| `BindExpansion.AddElementsOld` | src/DataStore/Driver/PdoDriver.php:314 | a key that no element name equals keeps its value |
| `BindExpansion.ElementNameInjective` | src/DataStore/Driver/PdoDriver.php:314 | distinct element keys of one list give distinct generated names |
| `BindExpansion.ExpandPrefixFailureSticks` | src/DataStore/Driver/PdoDriver.php:302-310 | once an entry throws, the result of the whole call is that exception |
| `BindExpansion.ExpandPrefixFails` | src/DataStore/Driver/PdoDriver.php:302-310 | a prefix of the loop fails exactly when it contains an empty list, and then with BIND_PARAM_EMPTY and no wrapped exception |
| `BindExpansion.ExpandFailsIffEmptyList` | src/DataStore/Driver/PdoDriver.php:302-310 | `prepareBind` throws exactly when some bind value is an empty array, always with BIND_PARAM_EMPTY |
| `BindExpansion.ExpandPrefixWithoutLists` | src/DataStore/Driver/PdoDriver.php:301-302 | without list values every prefix of the loop leaves sql and bind untouched |
| `BindExpansion.ExpandWithoutLists` | src/DataStore/Driver/PdoDriver.php:323-326 | without list values the sql comes back unchanged and the bind holds the same keys with the same values |
| `BindExpansion.ExpandPrefixSingleList` | src/DataStore/Driver/PdoDriver.php:315-319 | with one non-empty list every prefix past it has the placeholder replaced by the joined tokens |
| `BindExpansion.ExpandSingleList` | src/DataStore/Driver/PdoDriver.php:319 | with one list, the sql is the original cut at each `:name` and rejoined with the tokens joined by ", " |
| `BindExpansion.ExpandPrefixSql` | src/DataStore/Driver/PdoDriver.php:301-319 | while the loop has not thrown, its SQL is the original rewritten by each visited list in turn, in bind order |
| `BindExpansion.ExpandSql` | src/DataStore/Driver/PdoDriver.php:301-326 | with any number of non-empty lists, the returned SQL is cut at each list's `:name` and rejoined with that list's tokens, one list after the other in bind order |
| `BindExpansion.RewrittenSqlUntouched` | src/DataStore/Driver/PdoDriver.php:319 | lists whose `:name` occurs nowhere in the SQL leave every stage of the rewrite equal to the SQL |
| `BindExpansion.ExpandSqlUntouched` | src/DataStore/Driver/PdoDriver.php:319-326 | when no list's `:name` occurs in the SQL, the SQL comes back unchanged |
| `BindExpansion.GeneratedNameOverwritesScalar` | src/DataStore/Driver/PdoDriver.php:314 | a generated name equal to a scalar key replaces its value: list `a => [0 => 1]` beside `a_0 => 2` leaves only `a_0 => 1` |
| `BindExpansion.PrefixCollision` | src/DataStore/Driver/PdoDriver.php:319 | substring matching: expanding `:id` over `:id_type` gives `:id_0, :id_1_type` |
| `BindExpansion.ExpandPrefixBind` | src/DataStore/Driver/PdoDriver.php:301-317 | without name collisions each prefix of the loop leaves the bind map described by `BindAfter` |
| `BindExpansion.ExpandedBind` | src/DataStore/Driver/PdoDriver.php:301-326 | without collisions the output bind has every scalar pair, every element under `name_<key>`, no list key, and nothing else |
| `PdoDriver.OrderStub` | src/DataStore/Driver/PdoDriver.php:269-277 | the ORDER BY part is `ORDER BY field dir` with ASC for an empty direction, or empty for an empty field |
| `PdoDriver.AppendLimit` | src/DataStore/Driver/PdoDriver.php:279-286 | appends a space and the LIMIT clause exactly when the limit is not empty |
| `PdoDriver.BuildPageLimits` | src/DataStore/Driver/PdoDriver.php:267-289 | appending and then `ltrim` gives the ORDER BY and LIMIT clauses joined by one space |
| `Pagination.TrimJoined` | src/DataStore/Driver/PdoDriver.php:288 | stripping leading spaces from the appended stub removes exactly the separator left by an absent ORDER BY |
| `Pagination.NoLeadingSpace` | src/DataStore/Driver/PdoDriver.php:267-288 | the stub never starts with a space, and the default arguments give "" |
| `Pagination.OrderByIffSortField` | src/DataStore/Driver/PdoDriver.php:271-277 | the stub starts with `ORDER BY ` exactly when the sort field is non-empty, followed by the field and the direction, ASC if empty |
| `Pagination.NoLimitNoClause` | src/DataStore/Driver/PdoDriver.php:279 | a null or zero limit gives no LIMIT clause |
| `Pagination.LimitWithoutPage` | src/DataStore/Driver/PdoDriver.php:271-288 | for any sort field, a limit without a page gives `LIMIT {limit}`, after the ORDER BY part and one space when the field is non-empty |
| `Pagination.OrderThenLimit` | src/DataStore/Driver/PdoDriver.php:271-288 | for any sort field, a limit with a page gives `LIMIT {limit*page}, {limit}`, after the ORDER BY part and one space when the field is non-empty |
| `Pagination.PagedExample` | src/DataStore/Driver/PdoDriver.php:267-289 | ("name", "", 10, 2) gives `ORDER BY name ASC LIMIT 20, 10` |
| `Pagination.LimitOnlyExample` | src/DataStore/Driver/PdoDriver.php:267-289 | ("", "DESC", 5, null) gives `LIMIT 5` |
| `PdoDriver.PdoDriver.constructor` | src/DataStore/Driver/PdoDriver.php:22 | the statement table starts empty |
| `PdoDriver.PdoDriver.Statement` | src/DataStore/Driver/PdoDriver.php:168 | a slot yields a statement exactly when it exists and is not null |
| `PdoDriver.PdoDriver.Prepare` | src/DataStore/Driver/PdoDriver.php:141-155 | on success only slot `identifier` changes, to the new handle; on a connection exception the table is unchanged and PREPARE_EXCEPTION wraps it |
| `PdoDriver.PdoDriver.Clear` | src/DataStore/Driver/PdoDriver.php:252-256 | only slot `identifier` changes, to null, after which it yields no statement |
| `PdoDriver.PdoDriver.Execute` | src/DataStore/Driver/PdoDriver.php:165-187 | no statement gives `NoStatement`; otherwise EXECUTE_EXCEPTION with the bind, or the summary of last insert id and row count |
| `PdoDriver.PdoDriver.Fetch` | src/DataStore/Driver/PdoDriver.php:197-217 | no statement gives `NoStatement`; otherwise PREPARE_EXCEPTION with the bind, or all rows with `false` turned into `[]` |
| `PdoDriver.PdoDriver.SimpleFetch` | src/DataStore/Driver/PdoDriver.php:85-103 | expand, prepare into slot "single", fetch; every exception is wrapped; only slot "single" changes |
| `PdoDriver.PdoDriver.SimpleFetchOne` | src/DataStore/Driver/PdoDriver.php:56-75 | `simpleFetch` followed by the cardinality check |
| `PdoDriver.PdoDriver.SimpleExecute` | src/DataStore/Driver/PdoDriver.php:113-131 | expand, prepare into slot "single", execute; every exception is wrapped; only slot "single" changes |
| `PdoDriver.SelectOne` | src/DataStore/Driver/PdoDriver.php:60-74 | null exactly for no row, the row exactly for one, and for more an UnexpectedResultException carrying sql, bind and rows |
| `PdoDriver.SimpleFetchFailures` | src/DataStore/Driver/PdoDriver.php:91-99 | every exception of `simpleFetch` is SIMPLE_QUERY_EXCEPTION with the caller's sql and bind, wrapping BIND_PARAM_EMPTY or PREPARE_EXCEPTION |
| `PdoDriver.SimpleExecuteFailures` | src/DataStore/Driver/PdoDriver.php:119-127 | every exception of `simpleExecute` is SIMPLE_EXECUTE_EXCEPTION with the caller's sql and bind, wrapping BIND_PARAM_EMPTY, PREPARE_EXCEPTION or EXECUTE_EXCEPTION |
| `PdoDriver.EmptyListRejectedBeforePrepare` | src/DataStore/Driver/PdoDriver.php:88-89 | an empty list fails both calls with a wrapped BIND_PARAM_EMPTY before anything is prepared, so the table is unchanged |
| `PdoDriver.SimpleFetchSuccess` | src/DataStore/Driver/PdoDriver.php:87-102 | `simpleFetch` succeeds exactly when expansion, prepare and execute succeed; the rows are those of the statement now in slot "single" |
| `PdoDriver.SimpleExecuteSuccess` | src/DataStore/Driver/PdoDriver.php:115-130 | `simpleExecute` succeeds exactly when expansion, prepare and execute succeed; the summary is that of the statement now in slot "single" |
| `PdoDriver.SimpleTouchesOnlySingle` | src/DataStore/Driver/PdoDriver.php:89 | no slot but "single" changes, and it holds the new statement whenever one was prepared |
| `PdoDriver.SimpleFetchOneCardinality` | src/DataStore/Driver/PdoDriver.php:58-74 | UnexpectedResultException exactly for more than one row, null exactly for none, the row for one; other failures pass through unchanged |
| `Text.UpperAt` | src/Common/Configuration/Environment.php:37 | `strtoupper` keeps the length and upper-cases each character on its own |
| `Text.UpperIdempotent` | src/Common/Configuration/Environment.php:37 | upper-casing leaves no lower-case letter, so a second pass changes nothing |
| `Text.NatToStringLead` | src/DataStore/Driver/PdoDriver.php:282-284 | a number is written without leading zeros |
| `Text.NatToStringRoundTrip` | src/DataStore/Driver/PdoDriver.php:282-284 | the decimal digits put into the LIMIT clause read back as the number |
| `Text.TrimLeadingSpaces` | src/DataStore/Driver/PdoDriver.php:288 | `ltrim($s, ' ')` drops a run of leading spaces and nothing else, leaving no leading space |
| `Text.Split` | src/DataStore/Driver/PdoDriver.php:319 | the left-to-right pieces between occurrences of the pattern, none containing it |
| `Text.ReplaceAllIsImplodeOfSplit` | src/DataStore/Driver/PdoDriver.php:319 | `str_replace` equals joining those pieces with the replacement |
| `Text.SplitRoundTrip` | src/DataStore/Driver/PdoDriver.php:319 | joining the pieces with the pattern gives the original string back |
| `Text.ReplaceAllAbsent` | src/DataStore/Driver/PdoDriver.php:319 | a placeholder absent from the sql leaves it unchanged |
| `PhpValues.ToMapLookup` | src/DataStore/Driver/PdoDriver.php:301 | every pair of a bind array is found under its key in the array's dictionary |
| `PhpValues.IntToStringIsIntegerKey` | src/Common/Configuration/Configuration.php:58 | every 64-bit integer written in decimal is a key PHP turns into an integer |
| `PhpValues.StringKeys` | src/Common/Configuration/Configuration.php:58 | "0", "42" and "-7" become integer keys; "007", "-0", "" and "APP_1" stay strings |
| `Environment.Environment.constructor` | src/Common/Configuration/Environment.php:12 | the table starts empty |
| `Environment.Environment.Has` | src/Common/Configuration/Environment.php:14-17 | `array_key_exists`: true exactly for a key present as given, without upper-casing |
| `Environment.ValidKey` | src/Common/Configuration/Environment.php:27-33 | a key that passes has only characters of `[A-Z1-9_]`, except that its last character may be a newline |
| `Environment.Environment.SetPair` | src/Common/Configuration/Environment.php:61-62 | one loop step: an integer key fails with the TypeError and changes nothing; a string key is `set`, with the table and outcome of `ImportPair` |
| `Environment.ValidTableUpper` | src/Common/Configuration/Environment.php:37-47 | in a table of valid keys every key is its own upper-case form |
| `Environment.Environment.IsImportant` | src/Common/Configuration/Environment.php:19-25 | the entry's flag, or ENV_VAR_NOT_FOUND exactly when the exact key is absent |
| `Environment.Environment.Get` | src/Common/Configuration/Environment.php:50-56 | the stored value, a stored null included, for a present key; the default for an absent one |
| `Environment.Environment.Set` | src/Common/Configuration/Environment.php:35-48 | the table becomes what `Assign` gives, or is unchanged when it throws; stored keys stay valid, and each is its own upper-case form |
| `Environment.Environment.Import` | src/Common/Configuration/Environment.php:58-64 | the loop of `set` calls leaves the table and outcome of `ImportAll`; every stored key stays valid and upper-case |
| `Environment.AssignOutcome` | src/Common/Configuration/Environment.php:37-47 | CANNOT_OVERWRITE_IMPORTANT_ENV exactly for an important existing key; INVALID_ENV_KEY exactly for an invalid key otherwise; success stores the entry under the upper-cased key and changes no other key |
| `Environment.AssignKeepsImportant` | src/Common/Configuration/Environment.php:38-42 | an important entry is never overwritten by `set` |
| `Environment.ImportKeepsImportant` | src/Common/Configuration/Environment.php:58-64 | an important entry survives any import, however far it gets |
| `Environment.ImportFailureSticks` | src/Common/Configuration/Environment.php:61-63 | after a failing pair the later pairs change nothing |
| `Environment.ImportStopsAtFailure` | src/Common/Configuration/Environment.php:61-63 | a failed import stopped at one pair, with all earlier pairs stored and that pair's exception reported |
| `Environment.ImportKeepsKeysValid` | src/Common/Configuration/Environment.php:43-47 | only keys that match the pattern are ever stored |
| `Environment.ValidKeyIsUpper` | src/Common/Configuration/Environment.php:27-37 | a key matching the pattern is its own upper-case form |
| `Environment.LowerCaseKeyMoves` | src/Common/Configuration/Environment.php:37 | a key with a lower-case letter is changed by upper-casing |
| `Environment.LowerCaseKeyNotStored` | src/Common/Configuration/Environment.php:14-17 | after `set("foo", …)` the table has "FOO" but still no "foo", so `get("foo")` gives the default |
| `Environment.KeyExamples` | src/Common/Configuration/Environment.php:27-33 | "" and "A\n" pass the pattern; keys with '0', '-', lower case or two final newlines fail |
| `Configuration.LookupAfterImport` | src/Common/Configuration/Configuration.php:56-60 | after an import the section reads as the imported array alone, and every other section reads as before |
| `Configuration.SecondImportWins` | src/Common/Configuration/Configuration.php:58 | a key only the first of two imports of a section had is gone |
| `Configuration.NullReadsAsDefault` | src/Common/Configuration/Configuration.php:71-73 | a stored null reads as the default |
| `Configuration.Configuration.constructor` | src/Common/Configuration/Configuration.php:30-37 | a new container has no sections |
| `Configuration.Configuration.Import` | src/Common/Configuration/Configuration.php:56-60 | the section becomes exactly the imported array, and no other section changes |
| `Configuration.Configuration.Get` | src/Common/Configuration/Configuration.php:69-76 | the stored value when it is set; otherwise the default, whether the section is missing, the key is missing or the value is null |
| `Configuration.Singleton.constructor` | src/Common/Configuration/Configuration.php:25 | the static `$instance` starts unset |
| `Configuration.Singleton.Instance` | src/Common/Configuration/Configuration.php:42-48 | the first call creates an empty container, and every call returns the stored one |

## Left out

- The real PDO connection is not modelled; a `Connection` value stands for it. Each driver call takes the answers the connection gives during that call, so nothing is assumed about how it answers across calls.
- `closeCursor`, cursor state, and the connection's `fetchAll`, `rowCount` and `lastInsertId` are modelled as never throwing.
- PDO's silent error mode is not modelled: `prepare` returning `false` instead of throwing.
- `beginTransaction`, `commit` and `rollback` are not modelled. They only pass the call on to the connection.
- `getPdo` and the driver's constructor are not modelled. They only hold the connection.
- The wording of exception messages is not modelled; exceptions are tags that carry their context arrays and the exception they wrap.
- The order of keys in the output bind and in the exception context arrays is not modelled. Binds are dictionaries. Iteration over the input bind array keeps its order.
- Bind keys that are integers are not modelled: the bind array's keys and list element keys are written as strings. PHP concatenates an integer key into the same text.
- Floats and objects as bind values, configuration values and environment values are not modelled.
- `PdoDriver.BuildPageLimits`: does not model integer overflow in `limit * page`, where PHP switches to a float and prints it differently. Integers are unbounded here.
- `PdoDriver.AppendLimit`: does not model that overflow either.
- `BindExpansion.ExpandedBind`: the full description of the output bind is stated only for binds whose generated names collide with no other key. When they collide, the later write wins. `BindExpansion.GeneratedNameOverwritesScalar` shows one such input, where a scalar value is lost.
- `BindExpansion.ExpandSql`: for several lists, the SQL is stated as the rewrite by each list in turn, in bind order. There is no closed form of the final SQL. When a later list's `:name` occurs inside an earlier list's tokens, `str_replace` rewrites those tokens too, and the fold keeps that.
- The importers are not modelled: `PHPImporter`, `EnvFileImporter` and `SystemEnvImporter` read files and the process environment. `import` takes the importer's array as an argument.
- `Configuration.Configuration.Import`: requires a section name that PHP keeps as a string key. `array_merge` renumbers integer keys instead of replacing them, and that is not modelled.
- Environment keys are compared as exact character sequences. `strtoupper` is modelled on ASCII letters only, as PHP 8.2 and later do regardless of locale.
- The locale-dependent `strtoupper` of PHP 8.0 and 8.1 is not modelled. Under a single-byte locale other than C, it also upper-cases letters outside ASCII.
- Environment keys that are not valid UTF-8 are not modelled. They make the `/u` pattern fail outright.
- The static properties become objects: `Environment` and `Singleton`. The caller holds one of each.
