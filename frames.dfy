/**
 * The batch buffer of the connector, a table of rows in the shape a pandas
 * `DataFrame` gives them: column names, the dtype tag of each column, and
 * rows aligned with the columns. A record arrives already normalised, as
 * its fields in order with their dtype tags.
 */
module Frames {
  import opened Wrappers
  import opened Text
  import opened PyValues
  import opened PyDict
  import opened TypeMapping
  import opened SqlText

  /** One field of a normalised record: its column name, its value and the dtype tag of its column. */
  datatype Field = Field(name: string, value: Scalar, tag: string)

  function Names(rec: seq<Field>): (ns: seq<string>)
    ensures |ns| == |rec| && forall i :: 0 <= i < |rec| ==> ns[i] == rec[i].name
  {
    seq(|rec|, i requires 0 <= i < |rec| => rec[i].name)
  }

  /** The typed column the mapper gives one field. */
  function TypedField(tm: TypeMapper, f: Field): TypedColumn
  {
    TypedColumn(f.name, tm.Map(f.name, Some(f.tag)), f.value)
  }

  /**
   * `typed_columns(obj_dict, do_keep_nulls)`: every field with its mapped
   * type, in order, leaving out `None` values unless they are kept.
   */
  function TypedColumns(tm: TypeMapper, rec: seq<Field>, keepNulls: bool): (r: seq<TypedColumn>)
    ensures |r| <= |rec|
  {
    if rec == [] then []
    else (if keepNulls || !rec[0].value.Null? then [TypedField(tm, rec[0])] else []) + TypedColumns(tm, rec[1..], keepNulls)
  }

  /**
   * With nulls kept every field is typed in place; otherwise exactly the
   * non-null fields are, still in record order, and no null value is left.
   */
  lemma {:induction false} TypedColumnsSpec(tm: TypeMapper, rec: seq<Field>, keepNulls: bool)
    ensures keepNulls ==> TypedColumns(tm, rec, keepNulls) == seq(|rec|, i requires 0 <= i < |rec| => TypedField(tm, rec[i]))
    ensures !keepNulls ==> forall t :: t in TypedColumns(tm, rec, keepNulls) ==> !t.value.Null?
    ensures forall i :: 0 <= i < |rec| && !rec[i].value.Null? ==> TypedField(tm, rec[i]) in TypedColumns(tm, rec, keepNulls)
    ensures (forall i :: 0 <= i < |rec| ==> !rec[i].value.Null?) ==>
      TypedColumns(tm, rec, keepNulls) == TypedColumns(tm, rec, true)
  {
    if rec != [] {
      TypedColumnsSpec(tm, rec[1..], keepNulls);
      assert forall i :: 1 <= i < |rec| ==> rec[i] == rec[1..][i - 1];
    }
  }

  // ---- the frame ----

  datatype Frame = Frame(columns: seq<string>, tags: seq<string>, rows: seq<seq<Scalar>>)

  /** A tag per column, distinct column names, at least one row, every row as wide as the columns. */
  predicate WellFormed(f: Frame)
  {
    && |f.tags| == |f.columns|
    && Distinct(f.columns)
    && |f.rows| > 0
    && forall i :: 0 <= i < |f.rows| ==> |f.rows[i]| == |f.columns|
  }

  /** `pd.json_normalize(record)`: one row holding the record's values. */
  function FrameOf(rec: seq<Field>): (f: Frame)
    requires Distinct(Names(rec))
    ensures WellFormed(f) && f.columns == Names(rec) && |f.rows| == 1
    ensures forall j :: 0 <= j < |rec| ==> f.rows[0][j] == rec[j].value && f.tags[j] == rec[j].tag
  {
    Frame(Names(rec), seq(|rec|, i requires 0 <= i < |rec| => rec[i].tag),
      [seq(|rec|, i requires 0 <= i < |rec| => rec[i].value)])
  }

  /** The value of the field called `name`, or a missing value (`NaN`) when there is none. */
  function Lookup(rec: seq<Field>, name: string): (v: Scalar)
    ensures name !in Names(rec) ==> v == Null
  {
    if rec == [] then Null else if rec[0].name == name then rec[0].value else Lookup(rec[1..], name)
  }

  lemma {:induction false} LookupFound(rec: seq<Field>, k: int)
    requires Distinct(Names(rec)) && 0 <= k < |rec|
    ensures Lookup(rec, rec[k].name) == rec[k].value
  {
    if k > 0 {
      assert Names(rec[1..]) == Names(rec)[1..];
      assert rec[0].name != rec[k].name by { assert Names(rec)[0] != Names(rec)[k]; }
      LookupFound(rec[1..], k - 1);
    }
  }

  /** The fields whose names are not yet columns, in record order. */
  function NewFields(cols: seq<string>, rec: seq<Field>): (r: seq<Field>)
    ensures forall g :: g in r <==> g in rec && g.name !in cols
  {
    if rec == [] then []
    else (if rec[0].name in cols then [] else [rec[0]]) + NewFields(cols, rec[1..])
  }

  lemma DistinctCons(x: string, s: seq<string>)
    requires Distinct(s) && x !in s
    ensures Distinct([x] + s)
  {
    var t := [x] + s;
    forall i, j | 0 <= i < j < |t|
      ensures t[i] != t[j]
    {
      if i > 0 {
        assert t[i] == s[i - 1] && t[j] == s[j - 1];
      } else {
        assert t[j] == s[j - 1];
      }
    }
  }

  lemma NameIn(rec: seq<Field>, g: Field)
    requires g in rec
    ensures g.name in Names(rec)
  {
    var k :| 0 <= k < |rec| && rec[k] == g;
    assert Names(rec)[k] == g.name;
  }

  /** The first field's name is not among the later new fields. */
  lemma HeadNameFresh(cols: seq<string>, rec: seq<Field>)
    requires rec != [] && Distinct(Names(rec))
    ensures rec[0].name !in Names(NewFields(cols, rec[1..]))
  {
    var rest := NewFields(cols, rec[1..]);
    forall k | 0 <= k < |rest|
      ensures Names(rest)[k] != rec[0].name
    {
      assert rest[k] in rec[1..];
      var m :| 0 <= m < |rec[1..]| && rec[1..][m] == rest[k];
      assert Names(rec)[m + 1] == rest[k].name;
    }
  }

  /** The new fields have distinct names when the record has. */
  lemma {:induction false} NewFieldsDistinct(cols: seq<string>, rec: seq<Field>)
    requires Distinct(Names(rec))
    ensures Distinct(Names(NewFields(cols, rec)))
  {
    if rec != [] {
      assert Names(rec[1..]) == Names(rec)[1..];
      NewFieldsDistinct(cols, rec[1..]);
      NewFieldsStep(cols, rec);
    }
  }

  lemma NamesCons(g: Field, rest: seq<Field>)
    ensures Names([g] + rest) == [g.name] + Names(rest)
  {
  }

  lemma NewFieldsStep(cols: seq<string>, rec: seq<Field>)
    requires rec != [] && Distinct(Names(rec)) && Distinct(Names(NewFields(cols, rec[1..])))
    ensures Distinct(Names(NewFields(cols, rec)))
  {
    var rest := NewFields(cols, rec[1..]);
    if rec[0].name !in cols {
      assert NewFields(cols, rec) == [rec[0]] + rest;
      HeadNameFresh(cols, rec);
      NamesCons(rec[0], rest);
      DistinctCons(rec[0].name, Names(rest));
    } else {
      assert NewFields(cols, rec) == rest;
    }
  }

  /** Every field name that is not yet a column is among the new fields. */
  lemma NewFieldsCover(cols: seq<string>, rec: seq<Field>, n: string)
    requires n in Names(rec) && n !in cols
    ensures n in Names(NewFields(cols, rec))
  {
    var k :| 0 <= k < |rec| && Names(rec)[k] == n;
    assert rec[k] in NewFields(cols, rec);
    NameIn(NewFields(cols, rec), rec[k]);
  }

  function Nulls(n: nat): (r: seq<Scalar>)
    ensures |r| == n && forall i :: 0 <= i < n ==> r[i] == Null
  {
    seq(n, _ => Null)
  }

  /**
   * `pd.concat([df, pd.json_normalize(record)], ignore_index=True)`: the
   * record's new fields become new columns at the end, the old rows get a
   * missing value in them, and the record becomes the last row.
   */
  function Concat(f: Frame, rec: seq<Field>): Frame
  {
    var nf := NewFields(f.columns, rec);
    var cols := f.columns + Names(nf);
    Frame(cols, f.tags + seq(|nf|, i requires 0 <= i < |nf| => nf[i].tag),
      seq(|f.rows|, i requires 0 <= i < |f.rows| => f.rows[i] + Nulls(|nf|))
      + [seq(|cols|, j requires 0 <= j < |cols| => Lookup(rec, cols[j]))])
  }

  /** The columns after appending a record: the old ones, then the record's new fields. */
  lemma ConcatColumns(f: Frame, rec: seq<Field>)
    requires WellFormed(f) && Distinct(Names(rec))
    ensures var g := Concat(f, rec);
      && Distinct(g.columns)
      && g.columns[..|f.columns|] == f.columns
      && (forall n :: n in g.columns <==> n in f.columns || n in Names(rec))
  {
    var nf := NewFields(f.columns, rec);
    NewFieldsDistinct(f.columns, rec);
    var cols := f.columns + Names(nf);
    assert Concat(f, rec).columns == cols;
    forall i, j | 0 <= i < j < |cols|
      ensures cols[i] != cols[j]
    {
      if j >= |f.columns| && i < |f.columns| {
        assert nf[j - |f.columns|] in nf;
      } else if i >= |f.columns| {
        assert Names(nf)[i - |f.columns|] != Names(nf)[j - |f.columns|];
      }
    }
    forall n
      ensures n in cols <==> n in f.columns || n in Names(rec)
    {
      if n in cols && n !in f.columns {
        var k :| 0 <= k < |cols| && cols[k] == n;
        assert nf[k - |f.columns|] in nf;
        NameIn(rec, nf[k - |f.columns|]);
      }
      if n !in f.columns && n in Names(rec) {
        NewFieldsCover(f.columns, rec, n);
      }
    }
    assert cols[..|f.columns|] == f.columns;
  }

  /**
   * Appending a record keeps the frame well formed and adds one row: the
   * old rows keep their values and get missing values in the new columns,
   * and the new row holds the record's value for each column it has.
   */
  lemma ConcatRows(f: Frame, rec: seq<Field>)
    requires WellFormed(f) && Distinct(Names(rec))
    ensures var g := Concat(f, rec);
      && WellFormed(g)
      && |g.rows| == |f.rows| + 1
      && g.tags[..|f.columns|] == f.tags
      && (forall i, j :: 0 <= i < |f.rows| && 0 <= j < |g.columns| ==>
            g.rows[i][j] == if j < |f.columns| then f.rows[i][j] else Null)
      && (forall j :: 0 <= j < |g.columns| ==> g.rows[|f.rows|][j] == Lookup(rec, g.columns[j]))
  {
    ConcatColumns(f, rec);
    ConcatOldRows(f, rec);
    ConcatLastRow(f, rec);
    var g := Concat(f, rec);
    assert forall i :: 0 <= i < |g.rows| ==> |g.rows[i]| == |g.columns|;
  }

  /** The old rows of an appended frame: their values, then missing values. */
  lemma ConcatOldRows(f: Frame, rec: seq<Field>)
    requires WellFormed(f)
    ensures var g := Concat(f, rec);
      && |g.rows| == |f.rows| + 1
      && g.tags[..|f.columns|] == f.tags
      && |g.tags| == |g.columns|
      && (forall i :: 0 <= i < |f.rows| ==> |g.rows[i]| == |g.columns|)
      && (forall i, j :: 0 <= i < |f.rows| && 0 <= j < |g.columns| ==>
            g.rows[i][j] == if j < |f.columns| then f.rows[i][j] else Null)
  {
    var g := Concat(f, rec);
    var nf := NewFields(f.columns, rec);
    forall i | 0 <= i < |f.rows|
      ensures g.rows[i] == f.rows[i] + Nulls(|nf|)
    {
    }
  }

  /** The appended row holds the record's value for each column. */
  lemma ConcatLastRow(f: Frame, rec: seq<Field>)
    ensures var g := Concat(f, rec);
      && |g.rows| == |f.rows| + 1
      && |g.rows[|f.rows|]| == |g.columns|
      && (forall j :: 0 <= j < |g.columns| ==> g.rows[|f.rows|][j] == Lookup(rec, g.columns[j]))
  {
  }

  // ---- reading the frame ----

  /** Position of the first column called `c`. */
  function IndexOf(cols: seq<string>, c: string): (k: nat)
    requires c in cols
    ensures k < |cols| && cols[k] == c && c !in cols[..k]
  {
    if cols[0] == c then 0 else 1 + IndexOf(cols[1..], c)
  }

  /**
   * The type list of `execute_batch` and `append_to_batch`: each column with
   * the type the mapper gives its name and dtype, and no value.
   */
  function TypeListOf(tm: TypeMapper, f: Frame): (tl: seq<TypedColumn>)
    requires |f.tags| == |f.columns|
    ensures |tl| == |f.columns|
    ensures forall j :: 0 <= j < |tl| ==> tl[j] == TypedColumn(f.columns[j], tm.Map(f.columns[j], Some(f.tags[j])), Null)
  {
    seq(|f.columns|, j requires 0 <= j < |f.columns| => TypedColumn(f.columns[j], tm.Map(f.columns[j], Some(f.tags[j])), Null))
  }

  /** Some column is typed `datetime`. */
  predicate HasDatetime(tl: seq<TypedColumn>)
  {
    exists j :: 0 <= j < |tl| && tl[j].sqlType == Some("datetime")
  }

  /** The ids of the batch: `set(df[id_column])`. */
  function BatchIds(rows: seq<seq<Scalar>>, k: nat): (ids: set<Scalar>)
    requires forall i :: 0 <= i < |rows| ==> k < |rows[i]|
    ensures forall i :: 0 <= i < |rows| ==> rows[i][k] in ids
    ensures forall v :: v in ids ==> exists i :: 0 <= i < |rows| && rows[i][k] == v
  {
    set i | 0 <= i < |rows| :: rows[i][k]
  }

  // ---- splitting the batch ----

  /**
   * `df[~df[id].isin(ids)]` and `df[df[id].isin(ids)]`: the rows whose id is
   * not yet stored, and those whose id is, each in batch order.
   */
  function Partition(rows: seq<seq<Scalar>>, k: nat, ids: set<Scalar>): (p: (seq<seq<Scalar>>, seq<seq<Scalar>>))
    requires forall i :: 0 <= i < |rows| ==> k < |rows[i]|
    ensures forall i :: 0 <= i < |p.0| ==> k < |p.0[i]|
    ensures forall i :: 0 <= i < |p.1| ==> k < |p.1[i]|
  {
    if rows == [] then ([], [])
    else
      var rest := Partition(rows[1..], k, ids);
      if rows[0][k] in ids then (rest.0, [rows[0]] + rest.1) else ([rows[0]] + rest.0, rest.1)
  }

  /**
   * The two parts are disjoint and together hold every row once: every
   * update row has a stored id, every insert row an id that is not stored.
   */
  lemma {:induction false} PartitionSpec(rows: seq<seq<Scalar>>, k: nat, ids: set<Scalar>)
    requires forall i :: 0 <= i < |rows| ==> k < |rows[i]|
    ensures var (ins, upd) := Partition(rows, k, ids);
      && multiset(ins) + multiset(upd) == multiset(rows)
      && (forall r :: r in ins ==> |r| > k && r[k] !in ids)
      && (forall r :: r in upd ==> |r| > k && r[k] in ids)
  {
    PartitionCount(rows, k, ids);
    PartitionSides(rows, k, ids);
  }

  lemma {:induction false} PartitionCount(rows: seq<seq<Scalar>>, k: nat, ids: set<Scalar>)
    requires forall i :: 0 <= i < |rows| ==> k < |rows[i]|
    ensures multiset(Partition(rows, k, ids).0) + multiset(Partition(rows, k, ids).1) == multiset(rows)
  {
    if rows != [] {
      PartitionCount(rows[1..], k, ids);
      assert rows == [rows[0]] + rows[1..];
    }
  }

  lemma {:induction false} PartitionSides(rows: seq<seq<Scalar>>, k: nat, ids: set<Scalar>)
    requires forall i :: 0 <= i < |rows| ==> k < |rows[i]|
    ensures forall r :: r in Partition(rows, k, ids).0 ==> |r| > k && r[k] !in ids
    ensures forall r :: r in Partition(rows, k, ids).1 ==> |r| > k && r[k] in ids
  {
    if rows != [] {
      PartitionSides(rows[1..], k, ids);
    }
  }

  /**
   * The stored ids together with the ids of the new rows are the stored
   * ids together with all the batch's ids.
   */
  lemma {:induction false} PartitionIds(rows: seq<seq<Scalar>>, k: nat, ids: set<Scalar>)
    requires forall i :: 0 <= i < |rows| ==> k < |rows[i]|
    ensures ids + BatchIds(Partition(rows, k, ids).0, k) == ids + BatchIds(rows, k)
  {
    if rows != [] {
      var rest := rows[1..];
      PartitionIds(rest, k, ids);
      BatchIdsCons(rows[0], rest, k);
      assert rows == [rows[0]] + rest;
      if rows[0][k] !in ids {
        BatchIdsCons(rows[0], Partition(rest, k, ids).0, k);
      }
    }
  }

  lemma BatchIdsCons(r: seq<Scalar>, rows: seq<seq<Scalar>>, k: nat)
    requires k < |r| && forall i :: 0 <= i < |rows| ==> k < |rows[i]|
    ensures BatchIds([r] + rows, k) == {r[k]} + BatchIds(rows, k)
  {
    var all := [r] + rows;
    assert all[0] == r;
    forall i | 0 <= i < |rows| ensures all[i + 1] == rows[i] {}
  }

  /** The parameter tuples of the batch update: a row's values, then its id. */
  function UpdateParams(upd: seq<seq<Scalar>>, k: nat): (ps: seq<seq<Scalar>>)
    requires forall i :: 0 <= i < |upd| ==> k < |upd[i]|
    ensures |ps| == |upd|
    ensures forall i :: 0 <= i < |upd| ==> |ps[i]| == |upd[i]| + 1 && ps[i][..|upd[i]|] == upd[i] && ps[i][|upd[i]|] == upd[i][k]
  {
    seq(|upd|, i requires 0 <= i < |upd| => upd[i] + [upd[i][k]])
  }

  // ---- the composite id column of a batch ----

  /**
   * One row's `df[k0].str.cat(df[rest].astype(str), sep='+')`: the text of
   * the first key followed by the text of the others; a missing value when
   * the first key's value is not text.
   */
  function RowCompositeId(f: Frame, i: nat, keys: seq<string>): Scalar
    requires WellFormed(f) && i < |f.rows| && |keys| > 0
    requires forall j :: 0 <= j < |keys| ==> keys[j] in f.columns
  {
    var row := f.rows[i];
    var v0 := row[IndexOf(f.columns, keys[0])];
    if v0.Str? then
      Str(Join("+", [v0.s] + seq(|keys| - 1, j requires 0 <= j < |keys| - 1 => PyStr(row[IndexOf(f.columns, keys[j + 1])]))))
    else Null
  }

  /**
   * `concatenated_id_column(df, id_keys)`: IndexError for no keys, KeyError
   * when the first key is not a column, AttributeError when that column is
   * not of text (`object`) dtype, KeyError when another key is not a column.
   */
  function CompositeColumn(f: Frame, keys: seq<string>): (r: Result<seq<Scalar>, PyError>)
    requires WellFormed(f)
    ensures r.Ok? ==> |r.value| == |f.rows|
    ensures r.Ok? <==> (&& |keys| > 0
                        && (forall j :: 0 <= j < |keys| ==> keys[j] in f.columns)
                        && f.tags[IndexOf(f.columns, keys[0])] == "object")
    ensures keys == [] ==> r == Err(IndexError)
  {
    if keys == [] then Err(IndexError)
    else if keys[0] !in f.columns then Err(KeyError)
    else if f.tags[IndexOf(f.columns, keys[0])] != "object" then Err(AttributeError)
    else if exists j :: 1 <= j < |keys| && keys[j] !in f.columns then Err(KeyError)
    else Ok(seq(|f.rows|, i requires 0 <= i < |f.rows| => RowCompositeId(f, i, keys)))
  }

  /**
   * `df[name] = values`: an existing column is replaced in place, otherwise
   * a new column is added at the end; either way it is of `object` dtype.
   */
  function SetColumn(f: Frame, name: string, values: seq<Scalar>): (g: Frame)
    requires WellFormed(f) && |values| == |f.rows|
    ensures WellFormed(g) && name in g.columns && |g.rows| == |f.rows|
    ensures forall i :: 0 <= i < |g.rows| ==> g.rows[i][IndexOf(g.columns, name)] == values[i]
    ensures name in f.columns ==> g.columns == f.columns
    ensures name !in f.columns ==> g.columns == f.columns + [name]
    ensures g.tags[IndexOf(g.columns, name)] == "object"
    ensures forall j :: 0 <= j < |f.columns| && f.columns[j] != name ==> g.tags[j] == f.tags[j]
    ensures forall i, j :: 0 <= i < |f.rows| && 0 <= j < |f.columns| && f.columns[j] != name ==> g.rows[i][j] == f.rows[i][j]
  {
    if name in f.columns then ReplaceColumn(f, IndexOf(f.columns, name), values)
    else AppendColumn(f, name, values)
  }

  /** `df[name] = values` for the existing column at `k`. */
  function ReplaceColumn(f: Frame, k: nat, values: seq<Scalar>): (g: Frame)
    requires WellFormed(f) && |values| == |f.rows| && k < |f.columns|
    ensures WellFormed(g) && g.columns == f.columns && |g.rows| == |f.rows|
    ensures forall i :: 0 <= i < |g.rows| ==> g.rows[i][k] == values[i]
    ensures g.tags == f.tags[k := "object"]
    ensures forall i, j :: 0 <= i < |f.rows| && 0 <= j < |f.columns| && j != k ==> g.rows[i][j] == f.rows[i][j]
  {
    Frame(f.columns, f.tags[k := "object"], seq(|f.rows|, i requires 0 <= i < |f.rows| => f.rows[i][k := values[i]]))
  }

  /** `df[name] = values` for a new column, added at the end. */
  function AppendColumn(f: Frame, name: string, values: seq<Scalar>): (g: Frame)
    requires WellFormed(f) && |values| == |f.rows| && name !in f.columns
    ensures WellFormed(g) && g.columns == f.columns + [name] && |g.rows| == |f.rows|
    ensures IndexOf(g.columns, name) == |f.columns|
    ensures forall i :: 0 <= i < |g.rows| ==> g.rows[i][|f.columns|] == values[i]
    ensures g.tags == f.tags + ["object"]
    ensures forall i, j :: 0 <= i < |f.rows| && 0 <= j < |f.columns| ==> g.rows[i][j] == f.rows[i][j]
  {
    var g := Frame(f.columns + [name], f.tags + ["object"], seq(|f.rows|, i requires 0 <= i < |f.rows| => f.rows[i] + [values[i]]));
    assert g.columns[..|f.columns|] == f.columns;
    assert IndexOf(g.columns, name) == |f.columns|;
    assert Distinct(g.columns) by {
      forall i, j | 0 <= i < j < |g.columns|
        ensures g.columns[i] != g.columns[j]
      {
        if j == |f.columns| { assert f.columns[i] in f.columns; }
      }
    }
    g
  }
}
