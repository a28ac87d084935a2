# python-db-connector, modelled in Dafny

`DBConnector` upserts nested Python records into one SQL Server table through
pyodbc. The modelled core:

- **Type choice.** `TypeMapper.map` picks each column's SQL type through a
  direct → prefix → suffix → dtype priority chain.
- **Flattening.** `flatten_dict` / `flatten_dict_list` flatten a record. Each
  list of dicts becomes a dict keyed by a chosen field, or falls back to the
  list's text.
- **Statement text.** The module builds the text of every statement it sends:
  - the rendered values, and the insert and update statements;
  - `create table` and `alter table … add`;
  - the batch statements with `?` placeholders;
  - the ODBC connection string.
- **Caches.** The connector keeps caches of the table's columns and ids in step
  with the database:
  - `add_columns` adds only the columns the cache does not know, refreshing the
    cache after each one;
  - `get_table_ids` refreshes the id cache;
  - `insert_dict` decides between insert, update and no-op;
  - `append_to_batch` / `execute_batch` stage records in a frame and send them
    as an insert set and an update set.
- **Bounded retries.** `execute`, `executemany` and `commit` retry up to a
  bound and swallow driver errors.
- **The older revision.** `src/connector.py` shares the newer file's type
  mapper (its lines 38-48), `add_column` (90-92), connection string (105-116),
  `commit` (129-145) and `execute` (147-170), so one model covers both. Its
  differences from the newer file are modelled in module `Legacy`:
  - its dictionary-keyed column cache, which can never be filled;
  - its `'id'`-only id column;
  - its insert builder, which reads dictionary keys as typed columns.

The database is replaced by two objects.
- **`Driver`** logs every call made on the connection. Each call is an
  `execute`, an `executemany` with its commit, a `commit` or a reconnect. An
  oracle `ok: nat -> bool`, indexed by the call's position in the log, says
  whether the call is accepted or raises `db.Error`.
- **`Store`** holds what the database knows: whether the table exists, its
  columns, and the ids of its rows.

Each operation that changes the connector is a method of class
`Connector.DBConnector`. It is proved equal to a function (`AddRun`, `IdsRun`,
`InsertRun`, `BatchRun`, …) from the old snapshot of connector and database to
the new one. Lemmas then state what those functions guarantee:
- for every oracle: what can and cannot change, and which exceptions escape;
- for a database that accepts every call (`Reliable`): the exact statements
  sent and the exact new caches and tables.

Python exceptions are the values of `PyValues.PyError`. Python values are
`PyValues.Scalar`; records are `Flatten.Json`. Rows arriving at the connector
are already normalised, as `Frames.Field` values carrying their pandas dtype
tag.

The insert and update statements of the newer file render values with its
`parse_value`. That renderer produces an `int` for integer columns and text
without quotes (the first finding below). So `insert_dict` raises TypeError
for a new record with distinct columns whose values all pass `parse_value`
and which holds a non-blank value in an integer-typed column (not `bit` or
`datetime`); it writes text unquoted. The connector model uses these builders
as written (`SqlText.Sql`, `Connector.StoreRun`). The quoting renderer of the
older file (`SqlText.RenderValue`, `SqlText.InsertionStr`) is modelled beside
them as the corrected variant. Its renderings are the ones the newer file's
examples print, though those examples pass their arguments in the older
field order.

In `execute_batch`, the datetime conversion reads `db.df`, which does not
exist. A batch whose type list holds a `datetime` column therefore raises
AttributeError. This is what `Connector.BatchRun` does.

## Model

| member | source | states |
|---|---|---|
| TypeMapping.PrefixTestMeaning | src/pydbcon/connector.py:58-60 | `name[:len(p)] == p` holds exactly when `p` is a prefix of `name` |
| TypeMapping.SuffixTestMeaning | src/pydbcon/connector.py:61-63 | `name[-len(s):] == s` holds exactly when `s` is a suffix of `name`, for a non-empty `s`; an empty `s` matches only the empty name |
| TypeMapping.FirstHit | src/pydbcon/connector.py:58-63 | the value of the first entry, in insertion order, whose key matches; `None` exactly when no key matches |
| TypeMapping.TypeMapper.Map | src/pydbcon/connector.py:55-65 | `direct[name]` when present; otherwise the first matching prefix's type, then the first matching suffix's type, then `typed[tag]`, else `None` |
| TypeMapping.MapDocExamples | src/pydbcon/connector.py:33-48 | the documented mapper gives `int`, `varchar(10)`, `varchar(10)`, `int`, `bit`, and `None` for an unknown name with no tag |
| Flatten.FirstPresent | src/pydbcon/connector.py:264-268 | a candidate name the dict holds; `None` exactly when it holds none of them |
| Flatten.FlattenValue | src/pydbcon/connector.py:243-278 | scalars, and lists whose first element is a scalar, come back unchanged; an empty list raises IndexError; a flattened dict keeps exactly its keys, in order |
| Flatten.FlattenDict | src/pydbcon/connector.py:223-240 | a flattened dict has exactly the input's keys, in the same order |
| Flatten.FlattenDictValues | src/pydbcon/connector.py:240 | a dict flattens exactly when each of its values does; the result has each key in place with its value flattened, and the dict's own flattening is that dict |
| Flatten.KeyedPair | src/pydbcon/connector.py:275-277 | an element that is not a dict raises TypeError; a dict without the chosen key raises KeyError |
| Flatten.KeyedPairOk | src/pydbcon/connector.py:275-277 | a keyed element is a dict holding the chosen field; the pair is that field's value and the element's flattened entries with the chosen field removed, every other key kept |
| Flatten.KeyedListIsDictOfPairs | src/pydbcon/connector.py:275-278 | when every element converts, the keyed list is `dict(pairs)` of the elements' (key value, remainder) pairs |
| Flatten.KeyedListFirstError | src/pydbcon/connector.py:275 | the first element that fails to convert decides the exception of the whole list |
| Flatten.KeyedListLaterWins | src/pydbcon/connector.py:275-278 | the result's keys are exactly the elements' key values; under a shared key value the later element's remainder wins |
| Flatten.MissingNameRaises | src/pydbcon/connector.py:264-277 | with a single field name, any element lacking that field makes the whole flattening raise KeyError |
| Flatten.FallbackLooksAtFirstOnly | src/pydbcon/connector.py:270-273 | when the first element holds no candidate key, the list becomes its `str` text, whatever the later elements hold |
| Flatten.DefaultKeyAlwaysText | src/pydbcon/connector.py:264-273 | with the default `key=[]`, a list of dicts always becomes its text |
| Flatten.ScalarEntriesUnchanged | src/pydbcon/connector.py:240-259 | a dict of scalars flattens to itself |
| Flatten.FlattenDocScalars | src/pydbcon/connector.py:233-234 | `{'a': 1, 'b': 2}` flattens to itself |
| Flatten.FlattenDocText | src/pydbcon/connector.py:235-236 | `{'a': 1, 'b': [{'k': 2}]}` flattens to `{'a': 1, 'b': "[{'k': 2}]"}` |
| Flatten.KeyedDocPairs | src/pydbcon/connector.py:254-255 | each element of the documented keyed list converts to its key value and its remainder |
| Flatten.FlattenDocKeyed | src/pydbcon/connector.py:237-238 | the documented keyed record flattens to `{'a': 1, 'b': {2: {'val': 0}, 1: {'val': 2}}}` |
| PyDict.SetKeys | src/pydbcon/connector.py:275 | assigning to a dict keeps the key order, appends a new key at the end, and keeps the keys distinct |
| PyDict.SetGet | src/pydbcon/connector.py:275 | after `d[k] = v`, `k` reads `v` and every other key reads as before |
| PyDict.FromPairsGet | src/pydbcon/connector.py:327 | `dict(pairs)` holds a key exactly when some pair has it, with the value of the last such pair |
| PyDict.FromPairsDistinct | src/pydbcon/connector.py:336 | with distinct keys, `dict(pairs)` is the pairs themselves, in order |
| PyDict.SetKeyOrder | src/pydbcon/connector.py:275 | assigning to an existing key keeps the key order; a new key goes last |
| PyDict.SetAppends | src/pydbcon/connector.py:275 | assigning to a new key appends the pair at the end |
| PyDict.RemoveKeys | src/pydbcon/connector.py:277 | `pop(k)` removes `k` and keeps every other key and its value |
| PyValues.PyInt | src/pydbcon/connector.py:314-317 | `int(v)`: booleans give 0/1, integers themselves, text succeeds exactly when it parses as a signed decimal and otherwise raises ValueError; `None` and other values raise TypeError |
| Text.IntToStringRoundTrip | src/connector.py:255-258 | `int(str(i)) == i` for every integer |
| SqlText.HasIntType | src/pydbcon/connector.py:316 | `'int' in type` raises TypeError exactly when the column has no type |
| SqlText.ParseValue | src/pydbcon/connector.py:310-318 | `datetime` passes the value through before any other test; blank values give `NULL`; booleans in `bit` columns give `1`/`0`; a type containing `int` gives the integer `int(v)`, failing exactly when `int(v)` fails; an untyped column raises TypeError; other values come back unchanged; the column name is always kept |
| SqlText.RenderValue | src/connector.py:246-259 | the column name is always kept; blank values render as `NULL` |
| SqlText.RenderValueRules | src/connector.py:253-259 | `True`/`False` in `bit` columns render `1`/`0`; integer-typed columns give the bare text of the value; every other column gives the `N'…'` literal; an untyped column raises TypeError |
| SqlText.QuotedIsSafe | src/connector.py:259 | the `N'…'` literal holds exactly two single quotes, its delimiters, and in between is the text with each `'` replaced by `"` |
| PyValues.StrIntRoundTrip | src/pydbcon/connector.py:314-315 | `int(str(i))` reads back the integer `i` |
| SqlText.RenderIntRoundTrip | src/connector.py:257-258 | an integer in an integer column renders as text that reads back as the same integer |
| SqlText.RenderBitRoundTrip | src/connector.py:255-256 | an integer in a `bit` column renders as `str(int(v))`, which reads back as that integer |
| SqlText.RenderAll | src/connector.py:268 | rendering a row succeeds with one rendered pair per column, in order, or fails with the exception of the first column that fails |
| SqlText.WhereId | src/connector.py:269 | an `int` id is written bare and reads back as itself; any other id is single-quoted |
| SqlText.UpdateStr | src/connector.py:261-269 | the update statement exists exactly when every value renders, and then starts with `update <table> set ` and ends with ` where <id_column>=<id>`; otherwise it raises the rendering's exception |
| SqlText.UpdateAligned | src/connector.py:261-269 | with distinct columns whose values all render, the update statement is `update <table> set ` and one `[column]=value` assignment per column, in column order, with each value rendered by the quoting renderer, then the where clause |
| SqlText.ColumnsAndValues | src/pydbcon/connector.py:330-336 | the corrected column and value lists, using the quoting renderer: they exist exactly when every value renders |
| SqlText.InsertionStr | src/pydbcon/connector.py:338-345 | the corrected insert statement, using the quoting renderer: it exists exactly when every value renders |
| SqlText.InsertValuesAligned | src/pydbcon/connector.py:330-336 | with distinct column names, the values list holds exactly one rendered value per column, in column order |
| SqlText.ParseAll | src/pydbcon/connector.py:327 | mapping the newer renderer over a row gives one pair per column, in order, or fails with the exception of the first column that fails |
| SqlText.UpdateStrAsWritten | src/pydbcon/connector.py:320-328 | the newer update statement exists exactly when every value passes the newer renderer; it starts with `update <table> set ` and ends with ` where <id_column>=<id>`, and otherwise raises the renderer's exception |
| SqlText.UpdateAlignedAsWritten | src/pydbcon/connector.py:320-328 | with distinct columns whose values all pass the newer renderer, the newer update statement holds one `[column]=value` assignment per column, in column order, each value the `str` of the newer renderer's result |
| SqlText.JoinTexts | src/pydbcon/connector.py:336 | `', '.join(values)` succeeds exactly when every value is text |
| SqlText.ColumnsAndValuesAsWritten | src/pydbcon/connector.py:330-336 | a renderer exception passes through; otherwise the lists exist only when every rendered value is text, else TypeError; the column list is the columns in order |
| SqlText.InsertionStrAsWritten | src/pydbcon/connector.py:338-345 | the newer insert statement exists only when every value passes the newer renderer; its exceptions are TypeError or the renderer's |
| SqlText.InsertAsWritten | src/pydbcon/connector.py:330-345 | with distinct columns, the newer insert statement exists exactly when every value renders to text; a rendered non-text value raises TypeError; the statement lists the columns and the rendered texts, one per column, in order |
| SqlText.IntValueInsertRaises | src/pydbcon/connector.py:310-336 | for a record with distinct columns whose values all pass the newer renderer, a non-blank value in an integer-typed column (not `bit` or `datetime`) makes the newer insert builder raise TypeError |
| SqlText.IntColumnInsertRaises | src/pydbcon/connector.py:316-317 | the one-column record holding an integer in an integer-typed column makes the newer insert builder raise TypeError |
| SqlText.TextColumnInsertUnquoted | src/pydbcon/connector.py:318 | the newer insert builder writes a text value with no quotes |
| SqlText.IntColumnInsertValues | src/connector.py:257-258 | the quoting builder writes an integer column's value as its bare text |
| SqlText.TextColumnInsertValues | src/connector.py:259 | the quoting builder writes a text value as `N'…'`, unchanged inside when it has no single quote |
| SqlText.CreateTableSplits | src/pydbcon/connector.py:157-158 | when neither the table nor any column name holds `[`, splitting the `create table` statement at `[` gives the head `create table <table>(` and then one `column] type` piece per column, in order, each followed by `, ` or the closing `)` |
| SqlText.PlaceholderCount | src/pydbcon/connector.py:533 | `('?,' * n)[:-1]` holds exactly `n` marks |
| SqlText.BatchInsertMarks | src/pydbcon/connector.py:532-536 | the batch insert statement holds exactly one `?` per column |
| SqlText.BatchUpdateMarks | src/pydbcon/connector.py:542 | the batch update statement holds one `?` per column plus one for the id |
| SqlText.Sql | src/pydbcon/connector.py:425-429 | the DDL and lookups always render; the update renders exactly when every value passes the newer renderer; the insert, with distinct columns, renders exactly when every value parses to text |
| SqlText.ConnectionStringFields | src/pydbcon/connector.py:133-147 | splitting the connection string at `;` gives back the six `key=value` fields in order; the trust field reads `yes` exactly when trusted |
| SqlText.SplitTerminated | src/pydbcon/connector.py:133-147 | splitting `;`-terminated fields, none containing `;`, gives back the fields followed by an empty piece |
| CompositeId.KeyTexts | src/pydbcon/connector.py:451 | `str(d[k])` for each id key, in order; KeyError exactly when some key is missing |
| CompositeId.CompositeIdDict | src/pydbcon/connector.py:438-451 | KeyError for a missing id key, TypeError when the id name is already a key, otherwise the id first and every other key unchanged, with the joined texts as the id |
| CompositeId.CompositeIdDictSplits | src/pydbcon/connector.py:438-451 | splitting the composite id at a separator that occurs in no value gives back each key's text, in key order |
| Text.JoinSplit | src/pydbcon/connector.py:451 | splitting a join at a separator that occurs in no part gives back the parts |
| CompositeId.CompositeIdTypeColumn | src/pydbcon/connector.py:453-458 | the composite id column is named `id_name`, typed `varchar(max)`, and holds the separator-join of the texts of the columns among the id keys, in type-list order |
| CompositeId.SelectedExactly | src/pydbcon/connector.py:456 | when no column is among the id keys, no text is selected; when every column is, each column's value text is selected, in column order |
| CompositeId.KeyOrderIgnored | src/pydbcon/connector.py:456 | two id-key lists with the same members select the same texts and give the same composite id column, whatever their order |
| CompositeId.CompositeIdTypeColumnSplits | src/pydbcon/connector.py:456 | splitting the composite id at a separator that occurs in no selected value gives back the selected columns' texts, in type-list order |
| Frames.TypedColumns | src/pydbcon/connector.py:209-220 | at most one typed column per field |
| Frames.TypedColumnsSpec | src/pydbcon/connector.py:209-220 | with `do_keep_nulls` every field is typed in order; otherwise no null is kept and every non-null field is; without nulls the flag does not matter |
| Frames.FrameOf | src/pydbcon/connector.py:466 | a one-record frame has the record's names as columns and its values as its single row |
| Frames.LookupFound | src/pydbcon/connector.py:476 | a record's value under one of its own names is that field's value |
| Frames.NewFields | src/pydbcon/connector.py:476 | a concatenation appends exactly the record's fields whose names the frame lacks |
| Frames.NewFieldsDistinct | src/pydbcon/connector.py:476 | the columns a concatenation appends have distinct names |
| Frames.NewFieldsCover | src/pydbcon/connector.py:476 | every name of the record missing from the frame is appended |
| Frames.ConcatColumns | src/pydbcon/connector.py:476 | concatenation keeps the old columns first, keeps names distinct, and covers old and new names |
| Frames.ConcatRows | src/pydbcon/connector.py:476 | concatenation adds one row; old rows are padded with nulls; the new row holds the record's value under each column, or null |
| Frames.BatchIds | src/pydbcon/connector.py:549 | the set of the id column's values over all rows |
| Frames.PartitionSpec | src/pydbcon/connector.py:523-525 | insert rows and update rows together are a permutation of the rows; an insert row's id is not cached, an update row's id is |
| Frames.PartitionIds | src/pydbcon/connector.py:523-525 | adding the insert rows' ids to the cached ids gives the same set as adding all rows' ids |
| Frames.UpdateParams | src/pydbcon/connector.py:544 | each update parameter tuple is the row's values followed by its id |
| Frames.CompositeColumn | src/pydbcon/connector.py:479-480 | IndexError for no keys; the column exists exactly when every key is a column and the first is a text column; one value per row |
| Frames.SetColumn | src/pydbcon/connector.py:512 | `df[name] = values` replaces an existing column in place or appends a new one; each row holds its value there, the column's tag becomes `object`, and every other column keeps its cells and tag |
| Retry.Attempts | src/pydbcon/connector.py:183-207 | `execute(q, tries)` calls the driver at most `tries` times, and at least once when `tries > 0` |
| Retry.SucceedsMeaning | src/pydbcon/connector.py:183-207 | `execute` returns a result exactly when one of its `tries` attempts is accepted |
| Retry.FirstSuccess | src/pydbcon/connector.py:183-207 | the retries stop at the first accepted attempt |
| Retry.AllRejected | src/pydbcon/connector.py:183-207 | when every attempt is rejected, all `tries` are used and the result is `None` |
| Retry.CommitLog | src/pydbcon/connector.py:165-181 | a commit always starts with one commit call |
| Retry.CommitBounds | src/pydbcon/connector.py:165-181 | between 1 and `reconnect_attempts + 1` commits and at most `reconnect_attempts` reconnects are made; a successful run ends with a commit |
| Retry.ReliableOnce | src/pydbcon/connector.py:165-207 | against a database that accepts everything, one attempt suffices and one commit call is made |
| Connector.AddOne | src/pydbcon/connector.py:285-288 | a column already cached, or a failed earlier lookup, changes nothing; the table's columns can only grow, by this one column |
| Connector.AddAllAppend | src/pydbcon/connector.py:285 | adding the columns of `a + b` is adding those of `a`, then those of `b` |
| Connector.AddAllFailed | src/pydbcon/connector.py:287-288 | after a failed refresh nothing more is done |
| Connector.AddAllGrows | src/pydbcon/connector.py:280-288 | the table's columns only grow, and only by listed columns |
| Connector.AddAllKnown | src/pydbcon/connector.py:286 | when every listed column is cached, nothing is sent and nothing changes |
| Connector.AddAllReliable | src/pydbcon/connector.py:280-288 | against a reliable database the cache ends equal to the table's columns, which are the old ones plus every listed column |
| Connector.AddAllReliableLog | src/pydbcon/connector.py:280-288 | against a reliable database, one alter, commit and lookup is sent for each listed column not yet present, in list order, so a repeated column is added once |
| Connector.AddOneReliable | src/pydbcon/connector.py:286-288 | a missing column is altered in, committed, and the cache refreshed to the new columns |
| Connector.AddedFresh | src/pydbcon/connector.py:286 | each added column comes from the list and was not present |
| Connector.AddedDistinct | src/pydbcon/connector.py:286-288 | no column is added twice |
| Connector.AddedCover | src/pydbcon/connector.py:280-288 | the present columns plus the added ones are the present columns plus all listed ones |
| Connector.RecordId | src/pydbcon/connector.py:411 | the value of the first column named `id_column`; IndexError exactly when there is none |
| Connector.ExecRunReliable | src/pydbcon/connector.py:183-207 | a reliable `execute` sends its statement once and succeeds |
| Connector.CommitRunReliable | src/pydbcon/connector.py:165-181 | a reliable `commit` sends one commit call |
| Connector.CreateRun | src/pydbcon/connector.py:157-160 | creating the table leaves the stored and cached ids alone |
| Connector.CreateRunReliable | src/pydbcon/connector.py:157-160 | a reliable `create_table` sends the DDL, the column lookup and a commit; the table then exists with the listed columns (or keeps its own), and the cache holds them |
| Connector.IdsRun | src/pydbcon/connector.py:384-393 | the id cache ends holding the returned ids; nothing but the log and the id cache changes |
| Connector.IdsRunMeaning | src/pydbcon/connector.py:384-393 | without `recache` a present cache is returned as it is; a lookup without result gives the empty set; a reliable lookup returns the table's ids |
| Connector.IdsRunSynced | src/pydbcon/connector.py:384-393 | with caches in step and a reliable database, the returned ids are the table's ids and the caches stay in step |
| Connector.AddRun | src/pydbcon/connector.py:280-288 | `add_columns` changes only the log, the column cache and the table's columns |
| Connector.AddRunReliable | src/pydbcon/connector.py:280-288 | reliable `add_columns` on an existing table: exactly the alter log of the missing columns, and cache and columns become the old columns plus the listed ones |
| Connector.WriteRun | src/pydbcon/connector.py:431-434 | the id joins the id cache before the statement runs; the table's ids are unchanged or gain exactly this id |
| Connector.WriteRunReliable | src/pydbcon/connector.py:427-434 | a reliable write sends the update (id stored) or the insert (id new) and then a commit; the table's ids gain the id |
| Connector.StoreRun | src/pydbcon/connector.py:420-435 | success is `True` with the id cached; the table's ids gain at most this id; the only exceptions are AttributeError and the newer insert builder's own, and an exception leaves the ids and the id cache as they were |
| Connector.StoreRunReliable | src/pydbcon/connector.py:420-435 | against a reliable database the result is `True` exactly when the newer insert builder succeeds, else its exception; the record's columns are added either way; on `True` the id is added and the last statements are the update-or-insert and a commit; on an exception the ids and id cache are unchanged |
| Connector.IntRecordNeverStored | src/pydbcon/connector.py:406-435 | against a reliable database, a one-column record holding an integer id in an integer-typed column (not `bit` or `datetime`), and that is not a no-op, always raises TypeError; the table's ids are unchanged and a new id is never cached |
| Connector.InsertRunOutcome | src/pydbcon/connector.py:406-435 | `False` only without `force`, and then the state is exactly that after the id lookup, with the table's ids unchanged; the ids gain at most this id, and only on `True`; an exception keeps the ids and leaves the id cache as before or as looked up; the only exceptions are AttributeError and the newer insert builder's |
| Connector.InsertRunReliable | src/pydbcon/connector.py:406-435 | against a reliable database: `False` exactly when the id is stored and `force` is off, and then nothing but the id lookup is sent and the id cache becomes the table's ids; otherwise the newer insert builder's exception, with the ids unchanged and the columns added, or `True` with the id and columns added and the update-or-insert and a commit sent last |
| Connector.InsertCreateReliable | src/pydbcon/connector.py:413-414 | a missing table is created reliably, after which the caches are in step and the ids untouched |
| Connector.Prepared | src/pydbcon/connector.py:511-512 | without a composite id the buffer is used as it is; a prepared frame is well formed |
| Connector.PreparedComposite | src/pydbcon/connector.py:511-512 | a prepared composite frame holds, in the id column of each row, the row's composite id |
| Connector.SendRun | src/pydbcon/connector.py:535-546 | sending a batch changes only the log and the table's ids; the log only grows, and each new call is the batch insert of the insert rows or the batch update of the update rows |
| Connector.SendRunReliable | src/pydbcon/connector.py:535-546 | sent reliably, the log gains the insert `executemany` when there are insert rows, then the update `executemany` when there are update rows; the table's ids gain exactly the insert rows' ids |
| Connector.FlushRun | src/pydbcon/connector.py:514-551 | a failed flush raises AttributeError, keeps the table's ids and the buffer; a passed flush empties the buffer and sets the id cache to the looked-up ids plus every batch id |
| Connector.FlushRunReliable | src/pydbcon/connector.py:514-551 | a reliable flush empties the buffer; the columns gain the frame's columns, the table's ids and the cache gain every batch id |
| Connector.BatchRunOutcome | src/pydbcon/connector.py:507-551 | a failure keeps the table's ids, and the buffer as it was or as prepared; a success empties the buffer and sets the id cache to the looked-up ids plus every id of the prepared frame |
| Connector.BatchRunReliable | src/pydbcon/connector.py:507-551 | a reliable batch without datetime columns succeeds, empties the buffer, adds the frame's columns and every batch id |
| Connector.FindDatetime | src/pydbcon/connector.py:518-519 | the loop finds a `datetime` column exactly when the type list holds one |
| Connector.DBConnector.constructor | src/pydbcon/connector.py:68-105 | the fields `__init__` sets; the composite id name replaces `id_column` |
| Connector.DBConnector.Connect | src/pydbcon/connector.py:68-105 | construction caches the table's columns; a column lookup without result raises AttributeError |
| Connector.DBConnector.Retried | src/pydbcon/connector.py:183-207 | the retry loop sends the call once per attempt up to the first accepted one, and reports whether one was |
| Connector.DBConnector.Execute | src/pydbcon/connector.py:183-207 | `execute(q, tries)`: the attempts counted by `Attempts`, accepted exactly when `Succeeds` |
| Connector.DBConnector.ExecuteMany | src/pydbcon/connector.py:482-505 | `executemany`: the statement with its commit, retried the same way |
| Connector.DBConnector.Commit | src/pydbcon/connector.py:165-181 | `commit`: the log of `CommitLog`, committed exactly when `Committed` |
| Connector.DBConnector.GetTableColumns | src/pydbcon/connector.py:107-108 | the table's columns, or AttributeError when the lookup gets no result |
| Connector.DBConnector.CacheTableColumns | src/pydbcon/connector.py:110-113 | the cache becomes the table's columns; on failure it is left as it was |
| Connector.DBConnector.AddColumn | src/pydbcon/connector.py:118-120 | the alter statement with retries and a commit; an accepted alter adds the column to an existing table |
| Connector.DBConnector.AddIfMissing | src/pydbcon/connector.py:286-288 | one pass of the loop, as `AddOne` |
| Connector.DBConnector.AddColumns | src/pydbcon/connector.py:280-288 | `add_columns` is `AddRun`; a failed refresh raises AttributeError |
| Connector.DBConnector.GetTableIds | src/pydbcon/connector.py:384-393 | `get_table_ids` is `IdsRun` |
| Connector.DBConnector.CreateTable | src/pydbcon/connector.py:157-160 | `create_table` is `CreateRun`; a failed column lookup raises AttributeError |
| Connector.DBConnector.InsertDict | src/pydbcon/connector.py:395-435 | a record without an id column raises IndexError and changes nothing; otherwise `insert_dict` is `InsertRun`, which builds the insert with the newer builder as written; the composite id name replaces `id_column` |
| Connector.DBConnector.Upsert | src/pydbcon/connector.py:413-435 | the part of `insert_dict` after the id is known, as `InsertRun`, which uses the newer insert builder |
| Connector.DBConnector.StoreRecord | src/pydbcon/connector.py:420-435 | the part after the no-op test, as `StoreRun`, with the newer insert builder |
| Connector.DBConnector.Write | src/pydbcon/connector.py:431-434 | caching the id, the statement and the commit, as `WriteRun` |
| Connector.DBConnector.AppendToBatch | src/pydbcon/connector.py:460-476 | the first record starts the buffer, and creates the table when it is missing; later records are concatenated |
| Connector.DBConnector.PrepareBatch | src/pydbcon/connector.py:511-512 | the composite id column is set as `Prepared` says; nothing else changes |
| Connector.DBConnector.SendBatch | src/pydbcon/connector.py:535-546 | each non-empty set is sent with `executemany`, as `SendRun` |
| Connector.DBConnector.ExecuteBatch | src/pydbcon/connector.py:507-551 | `execute_batch` is `BatchRun` |
| Connector.DBConnector.FlushBatch | src/pydbcon/connector.py:514-551 | the part after preparation, as `FlushRun` |
| Legacy.LegacyConnector.constructor | src/connector.py:51-77 | the id column is `'id'` whatever was passed; the column cache is the empty dictionary |
| Legacy.LegacyConnector.CacheTableColumns | src/connector.py:82-85 | raises TypeError, because it passes an argument the lookup does not take |
| Legacy.LegacyConnector.HasColumn | src/connector.py:87-88 | KeyError exactly when the working table has no cache entry; otherwise membership in that entry |
| Legacy.LegacyConnector.AddColumns | src/connector.py:234-243 | raises KeyError for any non-empty input and does nothing for an empty one |
| Legacy.OldColumnsAndValues | src/connector.py:271-277 | succeeds only for an empty dictionary; any entry raises AttributeError |
| Legacy.OldInsertionStr | src/connector.py:279-286 | an insert statement exists only for an empty dictionary |
| Legacy.OldInsertionRaises | src/connector.py:271-286 | every non-empty row raises AttributeError, where the intended builder renders every row whose values render |

## Left out

- pyodbc itself is not modelled: connecting, cursors, `fetchall`, `tables()` and `fast_executemany`. The driver is an oracle that accepts or rejects each call in order. The database is the `Store` object.
- `has_table` is a read of `Store.hasTable`, not a metadata query.
- pandas is not modelled (`json_normalize`, dtype inference, `iterrows`, `str.cat`). Records arrive as ordered fields with their dtype tag. A frame is a list of columns, tags and rows.
- `Frames.CompositeColumn`: a column that `str.cat` sees as text is one of dtype `object`. Non-text values in such a column are not modelled.
- The datetime text conversion in `execute_batch` is not modelled beyond the AttributeError it raises.
- `vp`, `logger`, `ic`, `verbose`, and the `current` and `is_first` counters only log.
- Connector.DBConnector.Connect: during `__init__` the column lookup runs before `logger` is set. With `verbose` on, a first rejected lookup ends its retries early. The model treats `verbose` as off.
- `connection_from_file` (file and JSON I/O) and the `select` generator (cursor I/O) are not part of this model.
- Connector.DBConnector.InsertDict: `composite_id_kwargs` is taken with `id_name`, `id_keys` and the separator present. The KeyError of a missing `id_name` is not modelled.
- Connector.DBConnector.constructor: a `type_mapper` given as a dict is taken as an already-built `TypeMapper`. `composite_kwargs` always carries an `id_name`, so the KeyError that a `composite_kwargs` without `'id_name'` raises (src/pydbcon/connector.py:104) is not modelled; a missing `id_keys` is modelled as `None`.
- `typed_columns` of src/connector.py is not part of this model. It differs from the newer one only in always dropping nulls.
- `flatten_dict` / `flatten_dict_list` of src/connector.py are not modelled. Scalars and lists headed by a scalar come back unchanged (line 213), and dicts recurse (216-217). An empty list, or one headed by a dict or a list, reaches the call of `choose_key` on line 219 before its definition on line 224 and raises UnboundLocalError.
- Legacy.OldColumnsAndValues: the argument is taken as the dictionary its annotation names. The list that `typed_columns` really returns raises AttributeError even when empty.
- Python's `repr` of floats and timestamps is not modelled. `Other` scalars carry their text.
- PyValues.PyRepr: text is put between single quotes as it is. Python's switch to double quotes for text holding `'`, and its escaping of backslashes and control characters, are not modelled.
- Flatten.Repr: `str(list)` is built from `PyValues.PyRepr`, so it shares that simplified quoting.
- PyValues.PyInt: Python's `int` of a float truncates toward zero. Floats are `Other` values here, and the model raises TypeError for them.
- Text.ParseInt: Python's `int(str)` also accepts surrounding whitespace (`" 7"`), `_` digit separators (`"1_000"`) and non-ASCII digits. The model accepts only an optional sign followed by ASCII digits.
- PyDict.Get: keys are compared as model values. Python treats `True`, `1` and `1.0` as the same dict key; the model keeps `Bool(true)` and `Int(1)` apart.
- Connector.WriteRun, Connector.ManyRun, Connector.CreateRun, Connector.AlterStep (the alter step of Connector.AddOne) and Connector.DBConnector.Commit: transactions and rollback are not modelled. An accepted statement takes effect in `Store` at once. A commit rejected on every attempt undoes nothing, though in the database a reconnect drops the uncommitted work.
- Connector.ManyRun: `executemany` commits inside its retry loop (src/pydbcon/connector.py:489-494). The model treats the statement and its commit as one call that is accepted or rejected as a whole. An `executemany` that succeeds but whose commit fails, and is then sent again, is not modelled.

## Findings

| source | as written | input that shows it | evidently intended | confidence | as-written member | corrected member |
|---|---|---|---|---|---|---|
| src/pydbcon/connector.py:316-336 | `parse_value` returns `int(v)` for integer columns and text values unquoted, so `', '.join(values)` raises TypeError and text reaches the SQL without quotes | a record with an `int` column holding 10; a `varchar(max)` column holding `text string` | the renderings `'10'` and `N'text string'` that the examples at lines 303-306 print, and that src/connector.py:257-259 produces; those examples are stale, as they pass `TypedColumn` arguments in the older (column, value, type) order while the record type of lines 9-13 is (column, type, value), so as written they raise TypeError at `'int' in 10` | not executed | SqlText.IntValueInsertRaises | SqlText.IntColumnInsertValues |
| src/pydbcon/connector.py:406-435 | `insert_dict` builds its insert with `sql_insertion_str`, so the TypeError above escapes and the record is never stored | `insert_dict` of a new record `{'id': 10}` whose `id` column is typed `int`, against a database that accepts every call | the record is inserted and its id stored | not executed | Connector.IntRecordNeverStored | SqlText.IntColumnInsertValues |
| src/pydbcon/connector.py:318-336 | text values are written without quotes | `TypedColumn('other_column', 'varchar(max)', 'text string')` | `N'text string'` with inner quotes neutralised | not executed | SqlText.TextColumnInsertUnquoted | SqlText.QuotedIsSafe |
| src/connector.py:234-243 | `cache_table_columns` (lines 82-85) passes an extra argument and stores under the key `'table'`, so `has_column` raises KeyError on the empty cache | `add_columns` with any one column | add only the missing columns and refresh the cache | not executed | Legacy.LegacyConnector.AddColumns | Connector.AddAllReliable |
| src/connector.py:271-277 | iterating the dictionary of typed columns yields its string keys, which have no `column` | any non-empty dictionary of typed columns | one `[column]` and one rendered value per column | not executed | Legacy.OldInsertionRaises | SqlText.InsertValuesAligned |
