/**
 * The connector object: its caches (the table's columns, the stored ids,
 * the batch buffer) and the operations that keep them in step with the
 * database while upserting records one by one or in batches.
 *
 * The database is replaced by two objects: a `Driver` that logs every call
 * made on the connection and asks an oracle whether the call is accepted,
 * and a `Store` holding what the database knows about the working table.
 */
module Connector {
  import opened Wrappers
  import opened Text
  import opened PyValues
  import opened PyDict
  import opened TypeMapping
  import opened SqlText
  import opened CompositeId
  import opened Retry
  import opened Frames

  /** The connection: every call made on it, and the oracle deciding which are accepted. */
  class Driver {
    var sent: seq<Call>
    const ok: nat -> bool

    constructor (ok: nat -> bool)
      ensures this.ok == ok && sent == []
    {
      this.ok := ok;
      sent := [];
    }

    /** One call into the driver; a rejected call is a `db.Error`. */
    method Send(c: Call) returns (accepted: bool)
      modifies this
      ensures sent == old(sent) + [c]
      ensures accepted == ok(|old(sent)|)
    {
      accepted := ok(|sent|);
      sent := sent + [c];
    }
  }

  /** What the database holds for the working table. */
  class Store {
    var hasTable: bool
    var columns: set<string>
    var ids: set<Scalar>

    /** A table that does not exist has no columns and no rows. */
    ghost predicate Valid()
      reads this
    {
      !hasTable ==> columns == {} && ids == {}
    }

    constructor (hasTable: bool, columns: set<string>, ids: set<Scalar>)
      requires !hasTable ==> columns == {} && ids == {}
      ensures Valid() && this.hasTable == hasTable && this.columns == columns && this.ids == ids
    {
      this.hasTable := hasTable;
      this.columns := columns;
      this.ids := ids;
    }
  }

  /** `composite_kwargs` of the constructor; `idKeys` is `None` when the key `id_keys` is absent. */
  datatype CompositeKwargs = CompositeKwargs(idName: string, idKeys: Option<seq<string>>)

  /** `composite_id_kwargs` of `insert_dict`. */
  datatype CompositeArgs = CompositeArgs(idName: string, idKeys: seq<string>, sep: string)

  /** The names of a type list's columns. */
  function ColumnSet(tl: seq<TypedColumn>): set<string>
  {
    set i | 0 <= i < |tl| :: tl[i].column
  }

  /**
   * The columns `add_columns` adds, in list order: each column that is
   * neither known at the start nor added before.
   */
  function Added(tl: seq<TypedColumn>, have: set<string>): seq<TypedColumn>
  {
    if tl == [] then []
    else
      var init := tl[..|tl| - 1];
      var last := tl[|tl| - 1];
      Added(init, have) + (if last.column in have + ColumnSet(init) then [] else [last])
  }

  /** The calls of adding each of `added`: the alter statement, its commit, and the column lookup. */
  function AlterLog(table: string, added: seq<TypedColumn>): seq<Call>
  {
    if added == [] then []
    else AlterLog(table, added[..|added| - 1]) + AlterCalls(table, added[|added| - 1])
  }

  /**
   * What `add_columns` works on: the calls made so far, the column cache,
   * the table's columns in the database, and whether a cache refresh has
   * failed (raising AttributeError and ending the loop).
   */
  datatype AddState = AddState(sent: seq<Call>, cached: set<string>, columns: set<string>, failed: bool)

  /**
   * One pass of `add_columns`' loop: nothing when the column is cached;
   * otherwise the alter statement with its retries, the commit with one
   * reconnect attempt, and the retried column lookup. An accepted alter
   * adds the column to an existing table; a lookup without a result
   * leaves the cache as it was and fails.
   */
  function AddOne(ok: nat -> bool, table: string, hasTable: bool, s: AddState, t: TypedColumn): (e: AddState)
    ensures s.failed || t.column in s.cached ==> e == s
    ensures s.columns <= e.columns <= s.columns + {t.column}
  {
    if s.failed || t.column in s.cached then s
    else LookupStep(ok, table, AlterStep(ok, table, hasTable, s, t))
  }

  /** `add_column`: the retried alter statement, then the commit with one reconnect attempt. */
  function AlterStep(ok: nat -> bool, table: string, hasTable: bool, s: AddState, t: TypedColumn): AddState
  {
    var n := Attempts(ok, |s.sent|, Tries);
    s.(sent := s.sent + Repeated(Exec(AlterQuery(table, t.column, t.sqlType)), n) + CommitLog(ok, |s.sent| + n, 1),
       columns := if Succeeds(ok, |s.sent|, Tries) && hasTable then s.columns + {t.column} else s.columns)
  }

  /** `cache_table_columns` inside `add_columns`: a lookup without a result fails the loop. */
  function LookupStep(ok: nat -> bool, table: string, s: AddState): AddState
  {
    var looked := Succeeds(ok, |s.sent|, Tries);
    s.(sent := s.sent + Repeated(Exec(ColumnsQuery(table)), Attempts(ok, |s.sent|, Tries)),
       cached := if looked then s.columns else s.cached, failed := !looked)
  }

  /** The whole loop of `add_columns`, column by column. */
  function AddAll(ok: nat -> bool, table: string, hasTable: bool, s: AddState, tl: seq<TypedColumn>): AddState
  {
    if tl == [] then s
    else AddOne(ok, table, hasTable, AddAll(ok, table, hasTable, s, tl[..|tl| - 1]), tl[|tl| - 1])
  }

  /** The loop over `a + b` is the loop over `a`, then over `b`. */
  lemma {:induction false} AddAllAppend(ok: nat -> bool, table: string, hasTable: bool, s: AddState, a: seq<TypedColumn>, b: seq<TypedColumn>)
    ensures AddAll(ok, table, hasTable, s, a + b) == AddAll(ok, table, hasTable, AddAll(ok, table, hasTable, s, a), b)
  {
    if b == [] {
      assert a + b == a;
    } else {
      DropLast(a, b);
      AddAllAppend(ok, table, hasTable, s, a, b[..|b| - 1]);
    }
  }

  lemma DropLast<T>(a: seq<T>, b: seq<T>)
    requires b != []
    ensures (a + b)[..|a + b| - 1] == a + b[..|b| - 1] && (a + b)[|a + b| - 1] == b[|b| - 1]
  {
  }

  /** After a failure nothing more happens. */
  lemma {:induction false} AddAllFailed(ok: nat -> bool, table: string, hasTable: bool, s: AddState, tl: seq<TypedColumn>)
    requires s.failed
    ensures AddAll(ok, table, hasTable, s, tl) == s
  {
    if tl != [] {
      AddAllFailed(ok, table, hasTable, s, tl[..|tl| - 1]);
    }
  }

  /** The table gains only listed columns and never loses one. */
  lemma {:induction false} AddAllGrows(ok: nat -> bool, table: string, hasTable: bool, s: AddState, tl: seq<TypedColumn>)
    ensures s.columns <= AddAll(ok, table, hasTable, s, tl).columns <= s.columns + ColumnSet(tl)
  {
    if tl != [] {
      var init := tl[..|tl| - 1];
      var last := tl[|tl| - 1];
      AddAllGrows(ok, table, hasTable, s, init);
      ColumnSetAppend(init, [last]);
      assert tl == init + [last];
      assert ColumnSet([last]) == {last.column} by { assert [last][0] == last; }
      var e0 := AddAll(ok, table, hasTable, s, init);
      assert e0.columns <= AddOne(ok, table, hasTable, e0, last).columns <= e0.columns + {last.column};
    }
  }

  /** When every listed column is already cached, `add_columns` makes no call and changes nothing. */
  lemma {:induction false} AddAllKnown(ok: nat -> bool, table: string, hasTable: bool, s: AddState, tl: seq<TypedColumn>)
    requires ColumnSet(tl) <= s.cached
    ensures AddAll(ok, table, hasTable, s, tl) == s
  {
    if tl != [] {
      var init := tl[..|tl| - 1];
      ColumnSetAppend(init, [tl[|tl| - 1]]);
      assert tl == init + [tl[|tl| - 1]];
      assert tl[|tl| - 1].column in ColumnSet(tl);
      AddAllKnown(ok, table, hasTable, s, init);
    }
  }

  /**
   * On a reliable connection, with an existing table and a cache that
   * matches it, every missing column is added once, in list order, each
   * with its alter, commit and lookup; afterwards cache and table agree
   * and hold every listed column.
   */
  lemma {:induction false} AddAllReliable(ok: nat -> bool, table: string, s: AddState, tl: seq<TypedColumn>)
    requires Reliable(ok) && s.cached == s.columns && !s.failed
    ensures var e := AddAll(ok, table, true, s, tl);
      !e.failed && e.cached == e.columns && e.columns == s.columns + ColumnSet(tl)
  {
    if tl != [] {
      var init := tl[..|tl| - 1];
      var last := tl[|tl| - 1];
      AddAllReliable(ok, table, s, init);
      AddedStep(tl, |tl| - 1, s.cached, table);
      assert tl[..|tl| - 1 + 1] == tl;
      var e0 := AddAll(ok, table, true, s, init);
      if last.column !in e0.cached {
        AddOneReliable(ok, table, e0, last);
      }
    }
  }

  /** ... and the calls made are, for each missing column in list order, its alter, commit and lookup. */
  lemma {:induction false} AddAllReliableLog(ok: nat -> bool, table: string, s: AddState, tl: seq<TypedColumn>)
    requires Reliable(ok) && s.cached == s.columns && !s.failed
    ensures AddAll(ok, table, true, s, tl).sent == s.sent + AlterLog(table, Added(tl, s.cached))
  {
    if tl != [] {
      var init := tl[..|tl| - 1];
      var last := tl[|tl| - 1];
      AddAllReliableLog(ok, table, s, init);
      AddAllReliable(ok, table, s, init);
      AddedStep(tl, |tl| - 1, s.cached, table);
      assert tl[..|tl| - 1 + 1] == tl;
      var e0 := AddAll(ok, table, true, s, init);
      if last.column !in e0.cached {
        AddOneReliable(ok, table, e0, last);
        AppendAssoc(s.sent, AlterLog(table, Added(init, s.cached)), AlterCalls(table, last));
      }
    }
  }

  lemma SplitAt<T>(s: seq<T>, k: nat)
    requires k <= |s|
    ensures s[..k] + s[k..] == s
  {
  }

  lemma AppendAssoc<T>(a: seq<T>, b: seq<T>, c: seq<T>)
    ensures (a + b) + c == a + (b + c)
  {
  }

  /** One missing column on a reliable connection: its three calls, and the column in table and cache. */
  lemma AddOneReliable(ok: nat -> bool, table: string, s: AddState, t: TypedColumn)
    requires Reliable(ok) && s.cached == s.columns && !s.failed && t.column !in s.cached
    ensures AddOne(ok, table, true, s, t) ==
      AddState(s.sent + AlterCalls(table, t), s.columns + {t.column}, s.columns + {t.column}, false)
  {
    ReliableOnce(ok, |s.sent|, Tries, 1);
    ReliableOnce(ok, |s.sent| + 1, Tries, 1);
    ReliableOnce(ok, |s.sent| + 2, Tries, 1);
  }

  /** The calls of adding one column. */
  function AlterCalls(table: string, t: TypedColumn): seq<Call>
  {
    [Exec(AlterQuery(table, t.column, t.sqlType)), CommitCall, Exec(ColumnsQuery(table))]
  }

  /** One more column considered by `add_columns`. */
  lemma AddedStep(tl: seq<TypedColumn>, i: nat, have: set<string>, table: string)
    requires i < |tl|
    ensures ColumnSet(tl[..i + 1]) == ColumnSet(tl[..i]) + {tl[i].column}
    ensures tl[i].column in have + ColumnSet(tl[..i]) ==> Added(tl[..i + 1], have) == Added(tl[..i], have)
    ensures tl[i].column !in have + ColumnSet(tl[..i]) ==>
      AlterLog(table, Added(tl[..i + 1], have)) == AlterLog(table, Added(tl[..i], have)) + AlterCalls(table, tl[i])
  {
    ColumnSetAppend(tl[..i], [tl[i]]);
    assert tl[..i + 1] == tl[..i] + [tl[i]];
    assert ColumnSet([tl[i]]) == {tl[i].column} by { assert [tl[i]][0] == tl[i]; }
    assert tl[..i + 1][..i] == tl[..i];
    if tl[i].column !in have + ColumnSet(tl[..i]) {
      var a := Added(tl[..i], have) + [tl[i]];
      assert a[..|a| - 1] == Added(tl[..i], have);
    }
  }

  /** Only listed columns that were not known are added. */
  lemma {:induction false} AddedFresh(tl: seq<TypedColumn>, have: set<string>)
    ensures forall i :: 0 <= i < |Added(tl, have)| ==>
      Added(tl, have)[i] in tl && Added(tl, have)[i].column !in have
  {
    if tl != [] {
      var init := tl[..|tl| - 1];
      AddedFresh(init, have);
      assert tl == init + [tl[|tl| - 1]];
    }
  }

  /** No column is added twice. */
  lemma {:induction false} AddedDistinct(tl: seq<TypedColumn>, have: set<string>)
    ensures forall i, j :: 0 <= i < j < |Added(tl, have)| ==> Added(tl, have)[i].column != Added(tl, have)[j].column
  {
    if tl != [] {
      var init := tl[..|tl| - 1];
      var last := tl[|tl| - 1];
      AddedDistinct(init, have);
      AddedFresh(init, have);
      var a0 := Added(init, have);
      forall i | 0 <= i < |a0|
        ensures a0[i].column in ColumnSet(init)
      {
        var k :| 0 <= k < |init| && init[k] == a0[i];
      }
    }
  }

  /** The known columns and the added ones are together the known and the listed ones. */
  lemma {:induction false} AddedCover(tl: seq<TypedColumn>, have: set<string>)
    ensures have + ColumnSet(Added(tl, have)) == have + ColumnSet(tl)
  {
    if tl != [] {
      var init := tl[..|tl| - 1];
      var last := tl[|tl| - 1];
      AddedCover(init, have);
      var a0 := Added(init, have);
      ColumnSetAppend(init, [last]);
      assert ColumnSet([last]) == {last.column} by { assert [last][0] == last; }
      assert tl == init + [last];
      if last.column !in have + ColumnSet(init) {
        assert Added(tl, have) == a0 + [last];
        ColumnSetAppend(a0, [last]);
      } else {
        assert Added(tl, have) == a0;
      }
    }
  }

  lemma ColumnSetAppend(x: seq<TypedColumn>, y: seq<TypedColumn>)
    ensures ColumnSet(x + y) == ColumnSet(x) + ColumnSet(y)
  {
    forall n | n in ColumnSet(x + y) ensures n in ColumnSet(x) + ColumnSet(y) {
      var i :| 0 <= i < |x + y| && (x + y)[i].column == n;
      if i >= |x| { assert y[i - |x|].column == n; }
    }
    forall n | n in ColumnSet(y) ensures n in ColumnSet(x + y) {
      var i :| 0 <= i < |y| && y[i].column == n;
      assert (x + y)[i + |x|].column == n;
    }
    forall n | n in ColumnSet(x) ensures n in ColumnSet(x + y) {
      var i :| 0 <= i < |x| && x[i].column == n;
      assert (x + y)[i].column == n;
    }
  }

  /** The type list `insert_dict` builds: the non-null fields, then the composite id column if asked for. */
  function InsertTypeList(tm: TypeMapper, rec: seq<Field>, composite: Option<CompositeArgs>): seq<TypedColumn>
  {
    var tl := TypedColumns(tm, rec, false);
    match composite
    case None => tl
    case Some(args) => tl + [CompositeIdTypeColumn(tl, args.idName, args.idKeys, args.sep)]
  }

  /** Position `i` holds the first column called `idColumn`. */
  predicate FirstWith(tl: seq<TypedColumn>, idColumn: string, i: int)
  {
    0 <= i < |tl| && tl[i].column == idColumn && forall j :: 0 <= j < i ==> tl[j].column != idColumn
  }

  /**
   * `[t for t in type_list if t.column == id_column][0].value`: the value
   * of the first column called `idColumn`, IndexError when there is none.
   */
  function RecordId(tl: seq<TypedColumn>, idColumn: string): (r: Result<Scalar, PyError>)
    ensures r.Err? <==> forall i :: 0 <= i < |tl| ==> tl[i].column != idColumn
    ensures r.Err? ==> r.error == IndexError
    ensures forall i :: FirstWith(tl, idColumn, i) ==> r == Ok(tl[i].value)
  {
    if tl == [] then Err(IndexError)
    else if tl[0].column == idColumn then Ok(tl[0].value)
    else
      assert forall i :: FirstWith(tl, idColumn, i) ==> FirstWith(tl[1..], idColumn, i - 1);
      assert forall i :: 1 <= i < |tl| ==> tl[i] == tl[1..][i - 1];
      RecordId(tl[1..], idColumn)
  }

  /** The default `tries` of `execute` and `executemany`. */
  const Tries: nat := 10

  // ---- the connector's state as a value ----

  /**
   * A snapshot of everything the connector's operations read or change
   * outside the batch buffer: the calls made on the connection, the column
   * cache, the id cache, and what the database holds for the table.
   */
  datatype Conn = Conn(sent: seq<Call>, cached: set<string>, idCache: Option<set<Scalar>>,
                       hasTable: bool, columns: set<string>, ids: set<Scalar>)

  /**
   * Caches that agree with the database, for a table that holds nothing
   * when it does not exist.
   */
  predicate InSync(c: Conn)
  {
    && (!c.hasTable ==> c.columns == {} && c.ids == {})
    && c.cached == c.columns
    && (c.idCache.Some? ==> c.idCache.value == c.ids)
  }

  /** `execute(q)` with the default tries: the calls made, and whether one was accepted. */
  function ExecRun(ok: nat -> bool, c: Conn, q: Query): (Conn, bool)
  {
    (c.(sent := c.sent + Repeated(Exec(q), Attempts(ok, |c.sent|, Tries))), Succeeds(ok, |c.sent|, Tries))
  }

  /** `commit()` with one reconnect attempt. */
  function CommitRun(ok: nat -> bool, c: Conn): Conn
  {
    c.(sent := c.sent + CommitLog(ok, |c.sent|, 1))
  }

  /** `cache_table_columns()`: the lookup, and the cache refreshed only when it has a result. */
  function ColumnsRun(ok: nat -> bool, table: string, c: Conn): (Conn, bool)
  {
    var (c1, looked) := ExecRun(ok, c, ColumnsQuery(table));
    (if looked then c1.(cached := c1.columns) else c1, looked)
  }

  /** On a reliable connection a statement is sent once and accepted. */
  lemma ExecRunReliable(ok: nat -> bool, c: Conn, q: Query)
    requires Reliable(ok)
    ensures ExecRun(ok, c, q) == (c.(sent := c.sent + [Exec(q)]), true)
  {
    ReliableOnce(ok, |c.sent|, Tries, 1);
    assert Repeated(Exec(q), 1) == [Exec(q)];
  }

  /** On a reliable connection a commit is accepted at once. */
  lemma CommitRunReliable(ok: nat -> bool, c: Conn)
    requires Reliable(ok)
    ensures CommitRun(ok, c) == c.(sent := c.sent + [CommitCall])
  {
    ReliableOnce(ok, |c.sent|, Tries, 1);
  }

  /**
   * `create_table(type_list)`: the retried create statement (an accepted
   * one makes a missing table with the listed columns), the column cache
   * refresh, and, only when the lookup has a result, the commit. The flag
   * is whether the lookup had a result (otherwise AttributeError is raised).
   */
  function CreateRun(ok: nat -> bool, table: string, tl: seq<TypedColumn>, c: Conn): (r: (Conn, bool))
    ensures r.0.ids == c.ids && r.0.idCache == c.idCache
  {
    var (c1, accepted) := ExecRun(ok, c, CreateQuery(table, tl));
    var c2 := if accepted && !c.hasTable then c1.(hasTable := true, columns := ColumnSet(tl)) else c1;
    var (c3, looked) := ColumnsRun(ok, table, c2);
    (if looked then CommitRun(ok, c3) else c3, looked)
  }

  /**
   * On a reliable connection `create_table` makes a missing table with the
   * listed columns, caches the table's columns, and sends the create, the
   * lookup and one commit; the id cache and the stored ids are untouched.
   */
  lemma CreateRunReliable(ok: nat -> bool, table: string, tl: seq<TypedColumn>, c: Conn)
    requires Reliable(ok)
    ensures var columns := if c.hasTable then c.columns else ColumnSet(tl);
      CreateRun(ok, table, tl, c) ==
        (c.(sent := c.sent + [Exec(CreateQuery(table, tl)), Exec(ColumnsQuery(table)), CommitCall],
            cached := columns, hasTable := true, columns := columns), true)
  {
    var q := CreateQuery(table, tl);
    ExecRunReliable(ok, c, q);
    var c1 := c.(sent := c.sent + [Exec(q)]);
    var c2 := if !c.hasTable then c1.(hasTable := true, columns := ColumnSet(tl)) else c1;
    ExecRunReliable(ok, c2, ColumnsQuery(table));
    var c3 := c2.(sent := c2.sent + [Exec(ColumnsQuery(table))], cached := c2.columns);
    CommitRunReliable(ok, c3);
    assert c.sent + [Exec(q)] + [Exec(ColumnsQuery(table))] + [CommitCall]
      == c.sent + [Exec(q), Exec(ColumnsQuery(table)), CommitCall];
  }

  /**
   * `get_table_ids(recache)`: the cached ids unless a refresh is asked for
   * or nothing is cached; a lookup without a result caches no ids.
   */
  function IdsRun(ok: nat -> bool, table: string, idColumn: string, recache: bool, c: Conn): (r: (Conn, set<Scalar>))
    ensures r.0.idCache == Some(r.1)
    ensures r.0.(sent := c.sent, idCache := c.idCache) == c
  {
    if recache || c.idCache.None? then
      var (c1, accepted) := ExecRun(ok, c, IdsQuery(table, idColumn));
      var ids := if accepted then c.ids else {};
      (c1.(idCache := Some(ids)), ids)
    else (c, c.idCache.value)
  }

  /**
   * Without a refresh the cache answers and nothing is sent; a refresh
   * whose lookup never succeeds yields no ids; on a reliable connection a
   * refresh reads exactly the stored ids with one lookup.
   */
  lemma IdsRunMeaning(ok: nat -> bool, table: string, idColumn: string, recache: bool, c: Conn)
    ensures !recache && c.idCache.Some? ==> IdsRun(ok, table, idColumn, recache, c) == (c, c.idCache.value)
    ensures (recache || c.idCache.None?) && !Succeeds(ok, |c.sent|, Tries) ==>
      IdsRun(ok, table, idColumn, recache, c).1 == {}
    ensures Reliable(ok) && (recache || c.idCache.None?) ==>
      IdsRun(ok, table, idColumn, recache, c) == (c.(sent := c.sent + [Exec(IdsQuery(table, idColumn))], idCache := Some(c.ids)), c.ids)
  {
    if Reliable(ok) {
      ExecRunReliable(ok, c, IdsQuery(table, idColumn));
    }
  }

  /** `add_columns(type_list)` on a snapshot; the flag is false when a cache refresh failed. */
  function AddRun(ok: nat -> bool, table: string, c: Conn, tl: seq<TypedColumn>): (r: (Conn, bool))
    ensures r.0.(sent := c.sent, cached := c.cached, columns := c.columns) == c
  {
    var e := AddAll(ok, table, c.hasTable, AddState(c.sent, c.cached, c.columns, false), tl);
    (c.(sent := e.sent, cached := e.cached, columns := e.columns), !e.failed)
  }

  /**
   * On a reliable connection, with a cache that matches an existing table,
   * `add_columns` adds each missing column once, in list order, and leaves
   * cache and table agreeing on the old columns plus the listed ones.
   */
  lemma AddRunReliable(ok: nat -> bool, table: string, c: Conn, tl: seq<TypedColumn>)
    requires Reliable(ok) && c.hasTable && c.cached == c.columns
    ensures AddRun(ok, table, c, tl) ==
      (c.(sent := c.sent + AlterLog(table, Added(tl, c.cached)),
          cached := c.columns + ColumnSet(tl), columns := c.columns + ColumnSet(tl)), true)
  {
    var s := AddState(c.sent, c.cached, c.columns, false);
    AddAllReliable(ok, table, s, tl);
    AddAllReliableLog(ok, table, s, tl);
  }

  /**
   * The write at the end of `insert_dict`: the id joins the id cache, the
   * update (for a stored id) or insert statement is executed with retries,
   * and a commit follows. An accepted insert stores the id.
   */
  function WriteRun(ok: nat -> bool, table: string, idColumn: string, tl: seq<TypedColumn>, id: Scalar, isUpdate: bool, c: Conn): (e: Conn)
    requires c.idCache.Some?
    ensures e.idCache == Some(c.idCache.value + {id})
    ensures e.ids == c.ids || e.ids == c.ids + {id}
  {
    var q := if isUpdate then UpdateQuery(table, idColumn, tl, id) else InsertQuery(table, tl);
    var (c1, accepted) := ExecRun(ok, c.(idCache := Some(c.idCache.value + {id})), q);
    CommitRun(ok, if accepted && c1.hasTable && !isUpdate then c1.(ids := c1.ids + {id}) else c1)
  }

  /**
   * `insert_dict` once the type list and the record's id are known: create
   * a missing table, then skip a stored id unless forced, then store the
   * record. `Ok(false)` is a skipped record.
   */
  function InsertRun(ok: nat -> bool, table: string, idColumn: string, tl: seq<TypedColumn>, id: Scalar,
                     recache: bool, force: bool, doCreate: bool, c: Conn): (Conn, Result<bool, PyError>)
  {
    var (c1, created) := if c.hasTable then (c, true) else CreateRun(ok, table, tl, c);
    if !created then (c1, Err(AttributeError))
    else
      var (c2, ids) := IdsRun(ok, table, idColumn, recache, c1);
      if id in ids && !force then (c2, Ok(false))
      else StoreRun(ok, table, idColumn, tl, id, recache, doCreate, c2)
  }

  /**
   * The rest of `insert_dict`: add missing columns when asked to, build the
   * insert text with the statement builder as written (whose failure, for
   * instance on an integer column, raises after the columns were added),
   * look the id up again to choose between update and insert, and write.
   * Its only errors are AttributeError (a column lookup without a result)
   * and the error of building the insert; on success the id is in the id
   * cache; the only stored id it can add is the record's.
   */
  function StoreRun(ok: nat -> bool, table: string, idColumn: string, tl: seq<TypedColumn>, id: Scalar,
                    recache: bool, doCreate: bool, c: Conn): (r: (Conn, Result<bool, PyError>))
    ensures r.1.Ok? ==> r.1 == Ok(true) && r.0.idCache.Some? && id in r.0.idCache.value
    ensures r.0.ids == c.ids || (r.1 == Ok(true) && r.0.ids == c.ids + {id})
    ensures r.1.Err? ==> r.1.error == AttributeError || InsertionStrAsWritten(table, tl) == Err(r.1.error)
    ensures r.1.Err? ==> r.0.ids == c.ids && r.0.idCache == c.idCache
  {
    var (c3, added) := if doCreate then AddRun(ok, table, c, tl) else (c, true);
    if !added then (c3, Err(AttributeError))
    else if InsertionStrAsWritten(table, tl).Err? then (c3, Err(InsertionStrAsWritten(table, tl).error))
    else
      var (c4, ids2) := IdsRun(ok, table, idColumn, recache, c3);
      (WriteRun(ok, table, idColumn, tl, id, id in ids2, c4), Ok(true))
  }

  /** The snapshot after the table check of `insert_dict`: a missing table is created first. */
  function Created(ok: nat -> bool, table: string, tl: seq<TypedColumn>, c: Conn): Conn
  {
    if c.hasTable then c else CreateRun(ok, table, tl, c).0
  }

  /**
   * What every run of `insert_dict` guarantees: a skipped record was not
   * forced and costs only the table creation (for a missing table) and the
   * id lookup; the only change to the stored ids is the record's id, on a
   * write; a record that gets past the checks has its id in the id cache,
   * and one that raises leaves the id cache as it was or as the id lookup
   * left it, without the record's id added; the only errors are AttributeError
   * (a column lookup without a result) and the error of building the insert.
   */
  lemma InsertRunOutcome(ok: nat -> bool, table: string, idColumn: string, tl: seq<TypedColumn>, id: Scalar,
                         recache: bool, force: bool, doCreate: bool, c: Conn)
    ensures var (e, r) := InsertRun(ok, table, idColumn, tl, id, recache, force, doCreate, c);
      && (r == Ok(false) ==> !force && e.ids == c.ids)
      && (r == Ok(false) ==> e == IdsRun(ok, table, idColumn, recache, Created(ok, table, tl, c)).0)
      && (e.ids == c.ids || (r == Ok(true) && e.ids == c.ids + {id}))
      && (r.Ok? ==> e.idCache.Some? && id in e.idCache.value)
      && (r.Err? ==> e.ids == c.ids)
      && (r.Err? ==> e.idCache == c.idCache || e.idCache == IdsRun(ok, table, idColumn, recache, Created(ok, table, tl, c)).0.idCache)
      && (r.Err? ==> r.error == AttributeError || InsertionStrAsWritten(table, tl) == Err(r.error))
  {
  }

  /**
   * On a reliable connection with caches in step with the database: the
   * record is skipped exactly when its id is stored and the call is not
   * forced, and then only the id lookup is sent (when the cache is refreshed
   * or empty); otherwise the record raises exactly when the insert text
   * cannot be built, after the missing columns were added and without
   * storing or caching the id; otherwise the table ends up with every
   * listed column and the id, the caches stay in step, and the last two
   * calls are the update (for a stored id) or the insert, and a commit.
   */
  lemma InsertRunReliable(ok: nat -> bool, table: string, idColumn: string, tl: seq<TypedColumn>, id: Scalar,
                          recache: bool, force: bool, c: Conn)
    requires Reliable(ok) && InSync(c)
    ensures var (e, r) := InsertRun(ok, table, idColumn, tl, id, recache, force, true, c);
      && r == (if id in c.ids && !force then Ok(false)
               else if InsertionStrAsWritten(table, tl).Err? then Err(InsertionStrAsWritten(table, tl).error)
               else Ok(true))
      && InSync(e) && e.hasTable
      && (r == Ok(false) ==>
            e == c.(sent := c.sent + (if recache || c.idCache.None? then [Exec(IdsQuery(table, idColumn))] else []),
                    idCache := Some(c.ids)))
      && (r.Err? ==> e.ids == c.ids && e.idCache == Some(c.ids) && e.columns == c.columns + ColumnSet(tl))
      && (r == Ok(true) ==> e.ids == c.ids + {id} && e.columns == c.columns + ColumnSet(tl))
      && (r == Ok(true) ==>
            (&& |e.sent| >= 2
             && e.sent[|e.sent| - 2..] ==
                  [Exec(if id in c.ids then UpdateQuery(table, idColumn, tl, id) else InsertQuery(table, tl)), CommitCall]))
  {
    var c1 := InsertCreateReliable(ok, table, tl, c);
    var (c2, ids) := IdsRun(ok, table, idColumn, recache, c1);
    IdsRunSynced(ok, table, idColumn, recache, c1);
    if !(id in ids && !force) {
      StoreRunReliable(ok, table, idColumn, tl, id, recache, c2);
    } else {
      IdsRunMeaning(ok, table, idColumn, recache, c1);
    }
  }

  /** The storing half of `insert_dict` on a reliable connection with caches in step. */
  lemma StoreRunReliable(ok: nat -> bool, table: string, idColumn: string, tl: seq<TypedColumn>, id: Scalar,
                         recache: bool, c: Conn)
    requires Reliable(ok) && InSync(c) && c.hasTable && c.idCache.Some?
    ensures var (e, r) := StoreRun(ok, table, idColumn, tl, id, recache, true, c);
      && r == (if InsertionStrAsWritten(table, tl).Err? then Err(InsertionStrAsWritten(table, tl).error) else Ok(true))
      && InSync(e) && e.hasTable && e.columns == c.columns + ColumnSet(tl)
      && (r.Err? ==> e.ids == c.ids && e.idCache == c.idCache)
      && (r.Ok? ==> e.ids == c.ids + {id})
      && (r.Ok? ==>
            && |e.sent| >= 2
            && e.sent[|e.sent| - 2..] ==
                 [Exec(if id in c.ids then UpdateQuery(table, idColumn, tl, id) else InsertQuery(table, tl)), CommitCall])
  {
    AddRunReliable(ok, table, c, tl);
    var (c3, added) := AddRun(ok, table, c, tl);
    if InsertionStrAsWritten(table, tl).Ok? {
      var (c4, ids2) := IdsRun(ok, table, idColumn, recache, c3);
      IdsRunSynced(ok, table, idColumn, recache, c3);
      WriteRunReliable(ok, table, idColumn, tl, id, id in ids2, c4);
    }
  }

  /**
   * A record with a single integer column (`{'id': 10}` under a mapper that
   * types integers as `int`) can never be stored: on a reliable connection,
   * with its id new or forced, `insert_dict` raises TypeError after adding
   * the column, and neither stores nor caches the id.
   */
  lemma IntRecordNeverStored(ok: nat -> bool, table: string, col: string, ty: string, i: int,
                             recache: bool, force: bool, c: Conn)
    requires ty != "datetime" && ty != "bit" && ContainsSub(ty, "int")
    requires Reliable(ok) && InSync(c) && !(Int(i) in c.ids && !force)
    ensures var (e, r) := InsertRun(ok, table, col, [TypedColumn(col, Some(ty), Int(i))], Int(i), recache, force, true, c);
      && r == Err(TypeError) && e.ids == c.ids && (Int(i) !in c.ids ==> Int(i) !in e.idCache.value)
  {
    IntColumnInsertRaises(table, col, ty, i);
    InsertRunReliable(ok, table, col, [TypedColumn(col, Some(ty), Int(i))], Int(i), recache, force, c);
  }

  /** The table-creating first step of `insert_dict` on a reliable connection keeps the caches in step. */
  lemma InsertCreateReliable(ok: nat -> bool, table: string, tl: seq<TypedColumn>, c: Conn) returns (c1: Conn)
    requires Reliable(ok) && InSync(c)
    ensures (c1, true) == (if c.hasTable then (c, true) else CreateRun(ok, table, tl, c))
    ensures InSync(c1) && c1.hasTable && c1.ids == c.ids && c1.idCache == c.idCache
    ensures c1.columns + ColumnSet(tl) == c.columns + ColumnSet(tl)
  {
    if c.hasTable {
      c1 := c;
    } else {
      CreateRunReliable(ok, table, tl, c);
      c1 := CreateRun(ok, table, tl, c).0;
    }
  }

  /** On a reliable connection, with caches in step, the ids read are the stored ones. */
  lemma IdsRunSynced(ok: nat -> bool, table: string, idColumn: string, recache: bool, c: Conn)
    requires Reliable(ok) && InSync(c)
    ensures IdsRun(ok, table, idColumn, recache, c).1 == c.ids
    ensures InSync(IdsRun(ok, table, idColumn, recache, c).0)
  {
    IdsRunMeaning(ok, table, idColumn, recache, c);
  }

  /** The write on a reliable connection: its statement and a commit, and the id stored when inserted. */
  lemma WriteRunReliable(ok: nat -> bool, table: string, idColumn: string, tl: seq<TypedColumn>, id: Scalar, isUpdate: bool, c: Conn)
    requires Reliable(ok) && InSync(c) && c.hasTable && c.idCache.Some?
    requires isUpdate <==> id in c.ids
    ensures var e := WriteRun(ok, table, idColumn, tl, id, isUpdate, c);
      && InSync(e) && e.ids == c.ids + {id}
      && e == c.(sent := e.sent, idCache := e.idCache, ids := e.ids)
      && |e.sent| >= 2
      && e.sent[|e.sent| - 2..] == [Exec(if isUpdate then UpdateQuery(table, idColumn, tl, id) else InsertQuery(table, tl)), CommitCall]
  {
    var q := if isUpdate then UpdateQuery(table, idColumn, tl, id) else InsertQuery(table, tl);
    var c0 := c.(idCache := Some(c.idCache.value + {id}));
    ExecRunReliable(ok, c0, q);
    ReliableOnce(ok, |c.sent| + 1, Tries, 1);
    var e := WriteRun(ok, table, idColumn, tl, id, isUpdate, c);
    assert e.sent == c.sent + [Exec(q)] + [CommitCall];
  }

  // ---- the batch ----

  /**
   * The composite id step of `execute_batch`: with composite settings,
   * KeyError when they have no `id_keys`, IndexError when those are empty,
   * TypeError when there is no buffer, then the errors of computing the
   * column, and otherwise the buffer with the id column set.
   */
  function Prepared(composite: Option<CompositeKwargs>, df: Option<Frame>): (r: Result<Option<Frame>, PyError>)
    requires df.Some? ==> WellFormed(df.value)
    ensures r.Ok? && r.value.Some? ==> WellFormed(r.value.value)
    ensures composite.None? ==> r == Ok(df)
  {
    match composite
    case None => Ok(df)
    case Some(kw) =>
      if kw.idKeys.None? then Err(KeyError)
      else if |kw.idKeys.value| == 0 then Err(IndexError)
      else if df.None? then Err(TypeError)
      else match CompositeColumn(df.value, kw.idKeys.value)
        case Err(e) => Err(e)
        case Ok(col) => Ok(Some(SetColumn(df.value, kw.idName, col)))
  }

  /**
   * A prepared composite batch has one row per buffered row, and its id
   * column holds each row's composite id.
   */
  lemma PreparedComposite(kw: CompositeKwargs, f: Frame)
    requires WellFormed(f) && Prepared(Some(kw), Some(f)).Ok?
    ensures kw.idKeys.Some? && |kw.idKeys.value| > 0
    ensures var g := Prepared(Some(kw), Some(f)).value;
      && g.Some? && kw.idName in g.value.columns && |g.value.rows| == |f.rows|
      && forall i :: 0 <= i < |f.rows| ==>
           g.value.rows[i][IndexOf(g.value.columns, kw.idName)] == RowCompositeId(f, i, kw.idKeys.value)
  {
  }

  /**
   * One `executemany` of the batch with the default tries; an accepted
   * statement on an existing table stores `newIds`.
   */
  function ManyRun(ok: nat -> bool, c: Conn, q: Query, params: seq<seq<Scalar>>, newIds: set<Scalar>): Conn
  {
    var accepted := Succeeds(ok, |c.sent|, Tries);
    c.(sent := c.sent + Repeated(ExecMany(q, params), Attempts(ok, |c.sent|, Tries)),
       ids := if accepted && c.hasTable then c.ids + newIds else c.ids)
  }

  /**
   * An `executemany` of the batch insert with the new rows, when there are
   * any, or of the batch update with the stored rows, when there are any.
   */
  predicate BatchCall(call: Call, table: string, idColumn: string, cols: seq<string>, k: nat,
                      ins: seq<seq<Scalar>>, upd: seq<seq<Scalar>>)
    requires forall i :: 0 <= i < |upd| ==> k < |upd[i]|
  {
    || (|ins| > 0 && call == ExecMany(BatchInsertQuery(table, cols), ins))
    || (|upd| > 0 && call == ExecMany(BatchUpdateQuery(table, cols, idColumn), UpdateParams(upd, k)))
  }

  /** The two `executemany` calls of `execute_batch`, each only for a non-empty part. */
  function SendRun(ok: nat -> bool, table: string, idColumn: string, cols: seq<string>, k: nat,
                   ins: seq<seq<Scalar>>, upd: seq<seq<Scalar>>, c: Conn): (e: Conn)
    requires forall i :: 0 <= i < |ins| ==> k < |ins[i]|
    requires forall i :: 0 <= i < |upd| ==> k < |upd[i]|
    ensures e.(sent := c.sent, ids := c.ids) == c
    ensures c.sent <= e.sent
    ensures forall j :: |c.sent| <= j < |e.sent| ==> BatchCall(e.sent[j], table, idColumn, cols, k, ins, upd)
  {
    var c1 := if |ins| > 0 then ManyRun(ok, c, BatchInsertQuery(table, cols), ins, BatchIds(ins, k)) else c;
    if |upd| > 0 then ManyRun(ok, c1, BatchUpdateQuery(table, cols, idColumn), UpdateParams(upd, k), {}) else c1
  }

  /**
   * `execute_batch()`: the composite id column; AttributeError for a
   * missing buffer or a `datetime` column; KeyError when the id column is
   * not in the buffer; then the id lookup, the split into new and stored
   * rows, the missing columns, the batch insert and update, the batch ids
   * into the id cache, and the buffer cleared. The result holds the new
   * snapshot, the new buffer and the outcome.
   */
  function BatchRun(ok: nat -> bool, table: string, idColumn: string, tm: TypeMapper,
                    composite: Option<CompositeKwargs>, df: Option<Frame>, c: Conn): (Conn, Option<Frame>, Outcome<PyError>)
    requires df.Some? ==> WellFormed(df.value)
  {
    match Prepared(composite, df)
    case Err(e) => (c, df, Fail(e))
    case Ok(None) => (c, None, Fail(AttributeError))
    case Ok(Some(f)) =>
      if HasDatetime(TypeListOf(tm, f)) then (c, Some(f), Fail(AttributeError))
      else if idColumn !in f.columns then (c, Some(f), Fail(KeyError))
      else FlushRun(ok, table, idColumn, tm, f, c)
  }

  /**
   * The writing part of `execute_batch`, for a prepared buffer that has the
   * id column. A failure (a column lookup without a result) stores no row
   * and keeps the buffer; success clears the buffer and caches every batch id.
   */
  function FlushRun(ok: nat -> bool, table: string, idColumn: string, tm: TypeMapper, f: Frame, c: Conn)
    : (r: (Conn, Option<Frame>, Outcome<PyError>))
    requires WellFormed(f) && idColumn in f.columns
    ensures r.2.Fail? ==> r.2.error == AttributeError && r.0.ids == c.ids && r.1 == Some(f)
    ensures r.2.Pass? ==> r.1 == None
    ensures r.2.Pass? ==>
      r.0.idCache == Some(IdsRun(ok, table, idColumn, false, c).1 + BatchIds(f.rows, IndexOf(f.columns, idColumn)))
  {
    var (c1, ids) := IdsRun(ok, table, idColumn, false, c);
    var k := IndexOf(f.columns, idColumn);
    var (ins, upd) := Partition(f.rows, k, ids);
    var (c2, added) := AddRun(ok, table, c1, TypeListOf(tm, f));
    if !added then (c2, Some(f), Fail(AttributeError))
    else
      var c3 := SendRun(ok, table, idColumn, f.columns, k, ins, upd, c2);
      (c3.(idCache := Some(c3.idCache.value + BatchIds(f.rows, k))), None, Pass)
  }

  /**
   * A failed batch stores no row and keeps the buffer, with the composite
   * id column when that was computed; a successful one clears the buffer
   * and puts every batch id into the id cache.
   */
  lemma BatchRunOutcome(ok: nat -> bool, table: string, idColumn: string, tm: TypeMapper,
                        composite: Option<CompositeKwargs>, df: Option<Frame>, c: Conn)
    requires df.Some? ==> WellFormed(df.value)
    ensures var (e, d, r) := BatchRun(ok, table, idColumn, tm, composite, df, c);
      && (r.Fail? ==> e.ids == c.ids && (d == df || Prepared(composite, df) == Ok(d)))
      && (r.Pass? ==> d == None)
      && (r.Pass? ==> Prepared(composite, df).Ok? && Prepared(composite, df).value.Some?)
      && (r.Pass? ==>
            var f := Prepared(composite, df).value.value;
            (&& idColumn in f.columns
             && e.idCache == Some(IdsRun(ok, table, idColumn, false, c).1 + BatchIds(f.rows, IndexOf(f.columns, idColumn)))))
  {
  }

  /**
   * On a reliable connection with caches in step with an existing table, a
   * batch that passes the checks goes through: every column of the batch
   * exists afterwards, every batch id is stored, and the caches stay in step.
   */
  lemma BatchRunReliable(ok: nat -> bool, table: string, idColumn: string, tm: TypeMapper,
                         composite: Option<CompositeKwargs>, df: Option<Frame>, c: Conn, f: Frame)
    requires df.Some? ==> WellFormed(df.value)
    requires Reliable(ok) && InSync(c) && c.hasTable
    requires Prepared(composite, df) == Ok(Some(f)) && !HasDatetime(TypeListOf(tm, f)) && idColumn in f.columns
    ensures var (e, d, r) := BatchRun(ok, table, idColumn, tm, composite, df, c);
      && r == Pass && d == None && InSync(e) && e.hasTable
      && e.columns == c.columns + ColumnSet(TypeListOf(tm, f))
      && e.ids == c.ids + BatchIds(f.rows, IndexOf(f.columns, idColumn))
  {
    FlushRunReliable(ok, table, idColumn, tm, f, c);
  }

  /** The writing part of a batch on a reliable connection with caches in step. */
  lemma FlushRunReliable(ok: nat -> bool, table: string, idColumn: string, tm: TypeMapper, f: Frame, c: Conn)
    requires WellFormed(f) && idColumn in f.columns
    requires Reliable(ok) && InSync(c) && c.hasTable
    ensures var (e, d, r) := FlushRun(ok, table, idColumn, tm, f, c);
      && r == Pass && d == None && InSync(e) && e.hasTable
      && e.columns == c.columns + ColumnSet(TypeListOf(tm, f))
      && e.ids == c.ids + BatchIds(f.rows, IndexOf(f.columns, idColumn))
  {
    var tl := TypeListOf(tm, f);
    var k := IndexOf(f.columns, idColumn);
    IdsRunSynced(ok, table, idColumn, false, c);
    var (c1, ids) := IdsRun(ok, table, idColumn, false, c);
    var (ins, upd) := Partition(f.rows, k, ids);
    AddRunReliable(ok, table, c1, tl);
    var (c2, added) := AddRun(ok, table, c1, tl);
    SendRunReliable(ok, table, idColumn, f.columns, k, ins, upd, c2);
    PartitionIds(f.rows, k, ids);
  }

  /** The batch writes on a reliable connection store exactly the ids of the new rows. */
  lemma SendRunReliable(ok: nat -> bool, table: string, idColumn: string, cols: seq<string>, k: nat,
                        ins: seq<seq<Scalar>>, upd: seq<seq<Scalar>>, c: Conn)
    requires forall i :: 0 <= i < |ins| ==> k < |ins[i]|
    requires forall i :: 0 <= i < |upd| ==> k < |upd[i]|
    requires Reliable(ok) && c.hasTable
    ensures SendRun(ok, table, idColumn, cols, k, ins, upd, c).ids == c.ids + BatchIds(ins, k)
    ensures SendRun(ok, table, idColumn, cols, k, ins, upd, c).sent == c.sent
      + (if |ins| > 0 then [ExecMany(BatchInsertQuery(table, cols), ins)] else [])
      + (if |upd| > 0 then [ExecMany(BatchUpdateQuery(table, cols, idColumn), UpdateParams(upd, k))] else [])
  {
    ReliableOnce(ok, |c.sent|, Tries, 1);
    if |ins| == 0 {
      assert BatchIds(ins, k) == {};
    }
  }
  /** The `for typed_col in type_list` scan of `execute_batch`, stopping at the first `datetime` column. */
  method FindDatetime(tl: seq<TypedColumn>) returns (found: bool)
    ensures found == HasDatetime(tl)
  {
    for i := 0 to |tl|
      invariant forall j :: 0 <= j < i ==> tl[j].sqlType != Some("datetime")
    {
      if tl[i].sqlType == Some("datetime") {
        return true;
      }
    }
    return false;
  }

  class DBConnector {
    const table: string
    const typeMapper: TypeMapper
    const composite: Option<CompositeKwargs>
    const driver: Driver
    const store: Store
    var idColumn: string
    /** `table_columns`: the columns last read from the database. */
    var tableColumns: set<string>
    /** `id_cache`: the ids last read from the database plus those written since. */
    var idCache: Option<set<Scalar>>
    /** `df`: the batch buffer. */
    var df: Option<Frame>

    ghost predicate Valid()
      reads this, store
    {
      store.Valid() && (df.Some? ==> WellFormed(df.value))
    }

    /** Everything but the batch buffer, as a value. */
    ghost function Snap(): Conn
      reads this, driver, store
    {
      Conn(driver.sent, tableColumns, idCache, store.hasTable, store.columns, store.ids)
    }

    /** The fields `__init__` sets, before the columns are cached. */
    constructor (table: string, typeMapper: TypeMapper, idColumn: string, composite: Option<CompositeKwargs>,
                 driver: Driver, store: Store)
      requires store.Valid()
      ensures Valid()
      ensures this.table == table && this.typeMapper == typeMapper && this.composite == composite
      ensures this.driver == driver && this.store == store
      ensures this.idColumn == (if composite.Some? then composite.value.idName else idColumn)
      ensures tableColumns == {} && idCache.None? && df.None?
    {
      this.table := table;
      this.typeMapper := typeMapper;
      this.composite := composite;
      this.driver := driver;
      this.store := store;
      this.idColumn := if composite.Some? then composite.value.idName else idColumn;
      tableColumns := {};
      idCache := None;
      df := None;
    }

    /**
     * `DBConnector(...)`: builds the connector and caches the table's
     * columns; when the column lookup gets no result the constructor raises
     * AttributeError (the result of `execute` is `None`).
     */
    static method Connect(table: string, typeMapper: TypeMapper, idColumn: string, composite: Option<CompositeKwargs>,
                          driver: Driver, store: Store) returns (r: Result<DBConnector, PyError>)
      requires store.Valid()
      modifies driver
      ensures driver.sent == old(driver.sent) + Repeated(Exec(ColumnsQuery(table)), Attempts(driver.ok, |old(driver.sent)|, Tries))
      ensures r.Ok? <==> Succeeds(driver.ok, |old(driver.sent)|, Tries)
      ensures r.Err? ==> r.error == AttributeError
      ensures r.Ok? ==> (fresh(r.value) && r.value.Valid() && r.value.driver == driver && r.value.store == store
        && r.value.table == table && r.value.typeMapper == typeMapper && r.value.composite == composite
        && r.value.idColumn == (if composite.Some? then composite.value.idName else idColumn)
        && r.value.tableColumns == store.columns && r.value.idCache.None? && r.value.df.None?)
    {
      var c := new DBConnector(table, typeMapper, idColumn, composite, driver, store);
      var cached := c.CacheTableColumns();
      if cached.Fail? {
        return Err(cached.error);
      }
      return Ok(c);
    }

    /** The retry loop shared by `execute` and `executemany`: up to `tries` attempts, stopping at the first accepted one. */
    method Retried(c: Call, tries: nat) returns (accepted: bool)
      modifies driver
      ensures driver.sent == old(driver.sent) + Repeated(c, Attempts(driver.ok, |old(driver.sent)|, tries))
      ensures accepted == Succeeds(driver.ok, |old(driver.sent)|, tries)
    {
      ghost var start: nat := |driver.sent|;
      var left: nat := tries;
      accepted := false;
      while left > 0 && !accepted
        invariant left <= tries
        invariant driver.sent == old(driver.sent) + Repeated(c, tries - left)
        invariant !accepted ==> Attempts(driver.ok, start, tries) == (tries - left) + Attempts(driver.ok, start + tries - left, left)
        invariant !accepted ==> (Succeeds(driver.ok, start, tries) <==> Succeeds(driver.ok, start + tries - left, left))
        invariant accepted ==> Attempts(driver.ok, start, tries) == tries - left && Succeeds(driver.ok, start, tries)
        decreases left
      {
        SucceedsStep(driver.ok, start + tries - left, left);
        accepted := driver.Send(c);
        left := left - 1;
      }
    }

    /** `execute(sql_query, tries)`; the result is whether a call was accepted (otherwise `None` is returned). */
    method Execute(query: Query, tries: nat) returns (accepted: bool)
      modifies driver
      ensures driver.sent == old(driver.sent) + Repeated(Exec(query), Attempts(driver.ok, |old(driver.sent)|, tries))
      ensures accepted == Succeeds(driver.ok, |old(driver.sent)|, tries)
    {
      accepted := Retried(Exec(query), tries);
    }

    /** `executemany(values, query_string, tries)`: the statement and its commit are retried together. */
    method ExecuteMany(params: seq<seq<Scalar>>, query: Query, tries: nat) returns (accepted: bool)
      modifies driver
      ensures driver.sent == old(driver.sent) + Repeated(ExecMany(query, params), Attempts(driver.ok, |old(driver.sent)|, tries))
      ensures accepted == Succeeds(driver.ok, |old(driver.sent)|, tries)
    {
      accepted := Retried(ExecMany(query, params), tries);
    }

    /**
     * `commit(reconnect_attempts)`: a rejected commit is retried after a
     * reconnect while attempts are left; a rejected reconnect gives up.
     * No error escapes.
     */
    method Commit(attempts: nat) returns (committed: bool)
      modifies driver
      ensures driver.sent == old(driver.sent) + CommitLog(driver.ok, |old(driver.sent)|, attempts)
      ensures committed == Committed(driver.ok, |old(driver.sent)|, attempts)
    {
      ghost var start: nat := |driver.sent|;
      var left: nat := attempts;
      while true
        invariant left <= attempts
        invariant old(driver.sent) + CommitLog(driver.ok, start, attempts) == driver.sent + CommitLog(driver.ok, |driver.sent|, left)
        invariant Committed(driver.ok, start, attempts) == Committed(driver.ok, |driver.sent|, left)
        decreases left
      {
        ghost var here := driver.sent;
        CommitRound(driver.ok, old(driver.sent), start, attempts, here, left);
        var accepted := driver.Send(CommitCall);
        if accepted || left == 0 {
          return accepted;
        }
        var reconnected := driver.Send(Reconnect);
        if !reconnected {
          return false;
        }
        assert driver.sent == here + [CommitCall, Reconnect];
        left := left - 1;
      }
    }

    /** `get_table_columns()`: the table's columns, AttributeError when the lookup returns `None`. */
    method GetTableColumns() returns (r: Result<set<string>, PyError>)
      modifies driver
      ensures driver.sent == old(driver.sent) + Repeated(Exec(ColumnsQuery(table)), Attempts(driver.ok, |old(driver.sent)|, Tries))
      ensures r == if Succeeds(driver.ok, |old(driver.sent)|, Tries) then Ok(store.columns) else Err(AttributeError)
    {
      var accepted := Execute(ColumnsQuery(table), Tries);
      if !accepted {
        return Err(AttributeError);
      }
      return Ok(store.columns);
    }

    /** `cache_table_columns()`: refreshes the column cache, leaving it as it was when the lookup fails. */
    method CacheTableColumns() returns (r: Outcome<PyError>)
      modifies this, driver
      ensures driver.sent == old(driver.sent) + Repeated(Exec(ColumnsQuery(table)), Attempts(driver.ok, |old(driver.sent)|, Tries))
      ensures r.Pass? <==> Succeeds(driver.ok, |old(driver.sent)|, Tries)
      ensures r.Fail? ==> r.error == AttributeError
      ensures tableColumns == if r.Pass? then store.columns else old(tableColumns)
      ensures idColumn == old(idColumn) && idCache == old(idCache) && df == old(df)
    {
      var cols := GetTableColumns();
      if cols.Err? {
        return Fail(cols.error);
      }
      tableColumns := cols.value;
      return Pass;
    }

    /** `has_column(column)`, answered from the cache. */
    predicate HasColumn(column: string)
      reads this
    {
      column in tableColumns
    }

    /**
     * `add_column(column, column_type)`: the alter statement, then a commit.
     * An accepted alter adds the column to an existing table.
     */
    method AddColumn(column: string, sqlType: Option<string>)
      requires store.Valid()
      modifies driver, store
      ensures store.Valid()
      ensures var n := Attempts(driver.ok, |old(driver.sent)|, Tries);
        driver.sent == old(driver.sent) + Repeated(Exec(AlterQuery(table, column, sqlType)), n)
          + CommitLog(driver.ok, |old(driver.sent)| + n, 1)
      ensures store.columns == if Succeeds(driver.ok, |old(driver.sent)|, Tries) && old(store.hasTable)
        then old(store.columns) + {column} else old(store.columns)
      ensures store.hasTable == old(store.hasTable) && store.ids == old(store.ids)
    {
      var accepted := Execute(AlterQuery(table, column, sqlType), Tries);
      if accepted && store.hasTable {
        store.columns := store.columns + {column};
      }
      var _ := Commit(1);
    }

    /** What `add_columns` works on, in the current state. */
    ghost function AddingState(failed: bool): AddState
      reads this, driver, store
    {
      AddState(driver.sent, tableColumns, store.columns, failed)
    }

    /** One pass of `add_columns`' loop. */
    method AddIfMissing(t: TypedColumn) returns (r: Outcome<PyError>)
      requires Valid()
      modifies this, driver, store
      ensures Valid()
      ensures AddingState(r.Fail?) == AddOne(driver.ok, table, store.hasTable, old(AddingState(false)), t)
      ensures r.Fail? ==> r.error == AttributeError
      ensures idColumn == old(idColumn) && idCache == old(idCache) && df == old(df)
      ensures store.hasTable == old(store.hasTable) && store.ids == old(store.ids)
    {
      r := Pass;
      if !HasColumn(t.column) {
        AddColumn(t.column, t.sqlType);
        ghost var altered := AddingState(false);
        assert altered == AlterStep(driver.ok, table, store.hasTable, old(AddingState(false)), t);
        r := CacheTableColumns();
        assert AddingState(r.Fail?) == LookupStep(driver.ok, table, altered);
      }
    }

    /**
     * `add_columns(typed_columns)`: each listed column missing from the
     * cache is added and the cache refreshed; a failed refresh raises
     * AttributeError and ends the loop.
     */
    method AddColumns(tl: seq<TypedColumn>) returns (r: Outcome<PyError>)
      requires Valid()
      modifies this, driver, store
      ensures Valid()
      ensures (Snap(), r.Pass?) == AddRun(driver.ok, table, old(Snap()), tl)
      ensures r.Fail? ==> r.error == AttributeError
      ensures idColumn == old(idColumn) && df == old(df)
    {
      ghost var s0 := AddingState(false);
      r := Pass;
      for i := 0 to |tl|
        invariant Valid()
        invariant idColumn == old(idColumn) && idCache == old(idCache) && df == old(df)
        invariant store.hasTable == old(store.hasTable) && store.ids == old(store.ids)
        invariant r == Pass
        invariant AddingState(false) == AddAll(driver.ok, table, store.hasTable, s0, tl[..i])
      {
        assert tl[..i + 1][..i] == tl[..i];
        r := AddIfMissing(tl[i]);
        if r.Fail? {
          AddAllFailed(driver.ok, table, store.hasTable, AddingState(true), tl[i + 1..]);
          AddAllAppend(driver.ok, table, store.hasTable, s0, tl[..i + 1], tl[i + 1..]);
          SplitAt(tl, i + 1);
          return;
        }
      }
      assert tl[..|tl|] == tl;
    }

    /**
     * `get_table_ids(recache)`: the cached ids, read afresh when asked to or
     * when nothing is cached; a lookup without a result caches no ids.
     */
    method GetTableIds(recache: bool) returns (ids: set<Scalar>)
      modifies this, driver
      ensures (Snap(), ids) == IdsRun(driver.ok, table, idColumn, recache, old(Snap()))
      ensures idColumn == old(idColumn) && df == old(df)
    {
      if recache || idCache.None? {
        var accepted := Execute(IdsQuery(table, idColumn), Tries);
        idCache := Some(if accepted then store.ids else {});
      }
      ids := idCache.value;
    }

    /** `create_table(type_list)`; a failed column lookup raises AttributeError before the commit. */
    method CreateTable(tl: seq<TypedColumn>) returns (r: Outcome<PyError>)
      requires Valid()
      modifies this, driver, store
      ensures Valid()
      ensures (Snap(), r.Pass?) == CreateRun(driver.ok, table, tl, old(Snap()))
      ensures r.Fail? ==> r.error == AttributeError
      ensures idColumn == old(idColumn) && df == old(df)
    {
      var accepted := Execute(CreateQuery(table, tl), Tries);
      if accepted && !store.hasTable {
        store.hasTable := true;
        store.columns := ColumnSet(tl);
      }
      r := CacheTableColumns();
      if r.Pass? {
        var _ := Commit(1);
      }
    }

    /**
     * `insert_dict(obj_dict, recache, force, do_create_columns, ...)`: the
     * type list of the record (with the composite id column when asked
     * for), IndexError when it has no id column, then the upsert.
     */
    method InsertDict(rec: seq<Field>, recache: bool, force: bool, doCreateColumns: bool, compositeArgs: Option<CompositeArgs>)
      returns (r: Result<bool, PyError>)
      requires Valid()
      modifies this, driver, store
      ensures Valid()
      ensures idColumn == if compositeArgs.Some? then compositeArgs.value.idName else old(idColumn)
      ensures var tl := InsertTypeList(typeMapper, rec, compositeArgs);
        RecordId(tl, idColumn).Err? ==> r == Err(IndexError) && Snap() == old(Snap())
      ensures var tl := InsertTypeList(typeMapper, rec, compositeArgs);
        RecordId(tl, idColumn).Ok? ==>
          (Snap(), r) == InsertRun(driver.ok, table, idColumn, tl, RecordId(tl, idColumn).value,
                                   recache, force, doCreateColumns, old(Snap()))
      ensures df == old(df)
    {
      var tl := InsertTypeList(typeMapper, rec, compositeArgs);
      if compositeArgs.Some? {
        idColumn := compositeArgs.value.idName;
      }
      var id := RecordId(tl, idColumn);
      if id.Err? {
        return Err(id.error);
      }
      r := Upsert(tl, id.value, recache, force, doCreateColumns);
    }

    /** The body of `insert_dict` from the table check on. */
    method Upsert(tl: seq<TypedColumn>, id: Scalar, recache: bool, force: bool, doCreateColumns: bool)
      returns (r: Result<bool, PyError>)
      requires Valid()
      modifies this, driver, store
      ensures Valid()
      ensures (Snap(), r) == InsertRun(driver.ok, table, idColumn, tl, id, recache, force, doCreateColumns, old(Snap()))
      ensures idColumn == old(idColumn) && df == old(df)
    {
      if !store.hasTable {
        var created := CreateTable(tl);
        if created.Fail? {
          return Err(created.error);
        }
      }
      var ids := GetTableIds(recache);
      if id in ids && !force {
        return Ok(false);
      }
      r := StoreRecord(tl, id, recache, doCreateColumns);
    }

    /** The rest of `insert_dict`: the missing columns, the statement text, the second id lookup, the write. */
    method StoreRecord(tl: seq<TypedColumn>, id: Scalar, recache: bool, doCreateColumns: bool)
      returns (r: Result<bool, PyError>)
      requires Valid()
      modifies this, driver, store
      ensures Valid()
      ensures (Snap(), r) == StoreRun(driver.ok, table, idColumn, tl, id, recache, doCreateColumns, old(Snap()))
      ensures idColumn == old(idColumn) && df == old(df)
    {
      if doCreateColumns {
        var added := AddColumns(tl);
        if added.Fail? {
          return Err(added.error);
        }
      }
      var query := InsertionStrAsWritten(table, tl);
      if query.Err? {
        return Err(query.error);
      }
      var ids := GetTableIds(recache);
      Write(tl, id, id in ids);
      return Ok(true);
    }

    /** The last lines of `insert_dict`: the id into the cache, the statement, the commit. */
    method Write(tl: seq<TypedColumn>, id: Scalar, isUpdate: bool)
      requires Valid() && idCache.Some?
      modifies this, driver, store
      ensures Valid()
      ensures Snap() == WriteRun(driver.ok, table, idColumn, tl, id, isUpdate, old(Snap()))
      ensures idColumn == old(idColumn) && df == old(df)
    {
      idCache := Some(idCache.value + {id});
      var query := if isUpdate then UpdateQuery(table, idColumn, tl, id) else InsertQuery(table, tl);
      var accepted := Execute(query, Tries);
      if accepted && store.hasTable && !isUpdate {
        store.ids := store.ids + {id};
      }
      var _ := Commit(1);
    }

    /**
     * `append_to_batch(dictionary)`: the first record starts the buffer and
     * creates a missing table from the buffer's type list; later records
     * are appended to the buffer.
     */
    method AppendToBatch(rec: seq<Field>) returns (r: Outcome<PyError>)
      requires Valid() && Distinct(Names(rec))
      modifies this, driver, store
      ensures Valid()
      ensures df == Some(if old(df).None? then FrameOf(rec) else Concat(old(df).value, rec))
      ensures (Snap(), r.Pass?) ==
        if old(df).None? && !old(store.hasTable) then CreateRun(driver.ok, table, TypeListOf(typeMapper, FrameOf(rec)), old(Snap()))
        else (old(Snap()), true)
      ensures r.Fail? ==> r.error == AttributeError
      ensures idColumn == old(idColumn)
    {
      if df.None? {
        df := Some(FrameOf(rec));
        if !store.hasTable {
          r := CreateTable(TypeListOf(typeMapper, df.value));
          return;
        }
        return Pass;
      }
      ConcatRows(df.value, rec);
      df := Some(Concat(df.value, rec));
      r := Pass;
    }

    /** The composite id step of `execute_batch`. */
    method PrepareBatch() returns (r: Outcome<PyError>)
      requires Valid()
      modifies this
      ensures Valid()
      ensures match Prepared(composite, old(df))
        case Err(e) => r == Fail(e) && df == old(df)
        case Ok(d) => r == Pass && df == d
      ensures Snap() == old(Snap()) && idColumn == old(idColumn)
    {
      if composite.Some? {
        var kw := composite.value;
        if kw.idKeys.None? {
          return Fail(KeyError);
        }
        if |kw.idKeys.value| == 0 {
          return Fail(IndexError);
        }
        if df.None? {
          return Fail(TypeError);
        }
        var column := CompositeColumn(df.value, kw.idKeys.value);
        if column.Err? {
          return Fail(column.error);
        }
        df := Some(SetColumn(df.value, kw.idName, column.value));
      }
      return Pass;
    }

    /** The two `executemany` calls of `execute_batch`. */
    method SendBatch(cols: seq<string>, k: nat, ins: seq<seq<Scalar>>, upd: seq<seq<Scalar>>)
      requires Valid()
      requires forall i :: 0 <= i < |ins| ==> k < |ins[i]|
      requires forall i :: 0 <= i < |upd| ==> k < |upd[i]|
      modifies driver, store
      ensures Valid()
      ensures Snap() == SendRun(driver.ok, table, idColumn, cols, k, ins, upd, old(Snap()))
    {
      if |ins| > 0 {
        var accepted := ExecuteMany(ins, BatchInsertQuery(table, cols), Tries);
        if accepted && store.hasTable {
          store.ids := store.ids + BatchIds(ins, k);
        }
      }
      if |upd| > 0 {
        var _ := ExecuteMany(UpdateParams(upd, k), BatchUpdateQuery(table, cols, idColumn), Tries);
      }
    }

    /**
     * `execute_batch()`: writes the buffer, new rows by a batch insert and
     * stored ones by a batch update, then clears it. The id lookup reads
     * the cache when there is one; its second use in the source reads the
     * cache the first one filled.
     */
    method ExecuteBatch() returns (r: Outcome<PyError>)
      requires Valid()
      modifies this, driver, store
      ensures Valid() && idColumn == old(idColumn)
      ensures (Snap(), df, r) == BatchRun(driver.ok, table, idColumn, typeMapper, composite, old(df), old(Snap()))
    {
      r := PrepareBatch();
      if r.Fail? {
        return;
      }
      if df.None? {
        return Fail(AttributeError);
      }
      var f := df.value;
      var hasDatetime := FindDatetime(TypeListOf(typeMapper, f));
      if hasDatetime {
        return Fail(AttributeError);
      }
      if idColumn !in f.columns {
        return Fail(KeyError);
      }
      r := FlushBatch(f);
    }

    /** The writing part of `execute_batch`. */
    method FlushBatch(f: Frame) returns (r: Outcome<PyError>)
      requires Valid() && df == Some(f) && WellFormed(f) && idColumn in f.columns
      modifies this, driver, store
      ensures Valid() && idColumn == old(idColumn)
      ensures (Snap(), df, r) == FlushRun(driver.ok, table, idColumn, typeMapper, f, old(Snap()))
    {
      var tl := TypeListOf(typeMapper, f);
      var ids := GetTableIds(false);
      ghost var c1 := Snap();
      var k := IndexOf(f.columns, idColumn);
      var (ins, upd) := Partition(f.rows, k, ids);
      r := AddColumns(tl);
      ghost var c2 := Snap();
      assert (c2, r.Pass?) == AddRun(driver.ok, table, c1, tl);
      if r.Fail? {
        return;
      }
      SendBatch(f.columns, k, ins, upd);
      ghost var c3 := Snap();
      assert c3 == SendRun(driver.ok, table, idColumn, f.columns, k, ins, upd, c2);
      idCache := Some(idCache.value + BatchIds(f.rows, k));
      df := None;
    }
  }
}
