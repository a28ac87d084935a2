/**
 * The SQL text the connector sends: rendering of one typed value, the
 * single-row insert and update statements, the DDL, the batch statements
 * with `?` placeholders, and the ODBC connection string.
 */
module SqlText {
  import opened Wrappers
  import opened Text
  import opened PyValues
  import opened PyDict

  /**
   * A column of one record: its name, the SQL type the type mapper chose
   * for it (`None` when no tier of the mapper matched) and its value.
   */
  datatype TypedColumn = TypedColumn(column: string, sqlType: Option<string>, value: Scalar)

  /** `str(t.type)`: a missing type prints as `None`. */
  function TypeText(t: Option<string>): string
  {
    match t
    case Some(s) => s
    case None => "None"
  }

  /** `v is None or (type(v) == str and len(v) == 0)` */
  predicate IsBlank(v: Scalar)
  {
    v.Null? || v == Str("")
  }

  /** `'int' in t`: TypeError when there is no type at all. */
  function HasIntType(t: Option<string>): (r: Result<bool, PyError>)
    ensures t.None? <==> r == Err(TypeError)
  {
    match t
    case None => Err(TypeError)
    case Some(s) => Ok(ContainsSub(s, "int"))
  }

  // ---- rendering one value ----

  /**
   * `parse_value` of src/pydbcon/connector.py as written: a `datetime` column
   * passes its value through, blank values become the text `NULL`, `bit`
   * columns the text of `int(v)`, columns whose type contains `int` the
   * integer `int(v)` itself (not its text), and every other value comes back
   * unchanged.
   */
  function ParseValue(d: TypedColumn): (r: Result<(string, Scalar), PyError>)
    ensures r.Ok? ==> r.value.0 == d.column
    ensures d.sqlType == Some("datetime") ==> r == Ok((d.column, d.value))
    ensures d.sqlType != Some("datetime") && IsBlank(d.value) ==> r == Ok((d.column, Str("NULL")))
    ensures d.sqlType == Some("bit") && d.value.Bool? ==>
      r == Ok((d.column, Str(if d.value.b then "1" else "0")))
    ensures !IsBlank(d.value) && d.sqlType.None? ==> r == Err(TypeError)
    ensures (d.sqlType.Some? && d.sqlType.value != "datetime" && d.sqlType.value != "bit" && !IsBlank(d.value) &&
             ContainsSub(d.sqlType.value, "int")) ==>
      (r.Ok? <==> PyInt(d.value).Ok?) && (r.Ok? ==> r.value.1 == Int(PyInt(d.value).value))
    ensures (d.sqlType.Some? && d.sqlType.value != "datetime" && d.sqlType.value != "bit" && !IsBlank(d.value) &&
             !ContainsSub(d.sqlType.value, "int")) ==> r == Ok((d.column, d.value))
  {
    if d.sqlType == Some("datetime") then Ok((d.column, d.value))
    else if IsBlank(d.value) then Ok((d.column, Str("NULL")))
    else if d.sqlType == Some("bit") then
      (match PyInt(d.value)
       case Ok(n) => Ok((d.column, Str(IntToString(n))))
       case Err(e) => Err(e))
    else
      match HasIntType(d.sqlType)
      case Err(e) => Err(e)
      case Ok(isInt) =>
        if isInt then
          (match PyInt(d.value)
           case Ok(n) => Ok((d.column, Int(n)))
           case Err(e) => Err(e))
        else Ok((d.column, d.value))
  }

  /**
   * `parse_value` of src/connector.py: the same rules, except that there is
   * no `datetime` case, an integer column renders as the bare text of its
   * value, and every other value is put between `N'` and `'` with each
   * single quote inside replaced by a double quote.
   */
  function RenderValue(d: TypedColumn): (r: Result<(string, string), PyError>)
    ensures r.Ok? ==> r.value.0 == d.column
    ensures IsBlank(d.value) ==> r == Ok((d.column, "NULL"))
  {
    if IsBlank(d.value) then Ok((d.column, "NULL"))
    else if d.sqlType == Some("bit") then
      (match PyInt(d.value)
       case Ok(n) => Ok((d.column, IntToString(n)))
       case Err(e) => Err(e))
    else
      match HasIntType(d.sqlType)
      case Err(e) => Err(e)
      case Ok(isInt) =>
        if isInt then Ok((d.column, PyStr(d.value)))
        else Ok((d.column, Quoted(PyStr(d.value))))
  }

  /** `f"N'{s.replace(\"'\", '\"')}'"` */
  function Quoted(s: string): string
  {
    "N'" + ReplaceChar(s, '\'', '"') + "'"
  }

  /**
   * A quoted literal has exactly two single quotes, its delimiters, so no
   * value can close the literal early; between them is the text with each
   * single quote turned into a double quote.
   */
  lemma QuotedIsSafe(s: string)
    ensures Count(Quoted(s), '\'') == 2
    ensures Quoted(s)[..2] == "N'" && Quoted(s)[|Quoted(s)| - 1] == '\''
    ensures var inner := Quoted(s)[2..|Quoted(s)| - 1];
      |inner| == |s| && '\'' !in inner &&
      forall i :: 0 <= i < |s| ==> inner[i] == (if s[i] == '\'' then '"' else s[i])
  {
    var inner := ReplaceChar(s, '\'', '"');
    assert '\'' !in inner;
    CountAbsent(inner, '\'');
    CountAppend("N'", inner, '\'');
    CountAppend("N'" + inner, "'", '\'');
    assert Quoted(s)[2..|Quoted(s)| - 1] == inner;
  }

  /** Blank values, booleans in `bit` columns and integers in integer columns, as the old renderer writes them. */
  lemma RenderValueRules(col: string, ty: string, v: Scalar)
    ensures RenderValue(TypedColumn(col, Some("bit"), Bool(true))) == Ok((col, "1"))
    ensures RenderValue(TypedColumn(col, Some("bit"), Bool(false))) == Ok((col, "0"))
    ensures ty != "bit" && ContainsSub(ty, "int") && !IsBlank(v) ==>
      RenderValue(TypedColumn(col, Some(ty), v)) == Ok((col, PyStr(v)))
    ensures ty != "bit" && !ContainsSub(ty, "int") && !IsBlank(v) ==>
      RenderValue(TypedColumn(col, Some(ty), v)) == Ok((col, Quoted(PyStr(v))))
    ensures !IsBlank(v) ==> RenderValue(TypedColumn(col, None, v)) == Err(TypeError)
  {
    assert IntToString(1) == "1" && IntToString(0) == "0";
  }

  /** An integer in an integer column renders as text that `int()` reads back as the same integer. */
  lemma RenderIntRoundTrip(col: string, ty: string, i: int)
    requires ty != "bit" && ContainsSub(ty, "int")
    ensures RenderValue(TypedColumn(col, Some(ty), Int(i))).Ok?
    ensures ParseInt(RenderValue(TypedColumn(col, Some(ty), Int(i))).value.1) == Some(i)
  {
    IntToStringRoundTrip(i);
  }

  /** A `bit` column holding an integer renders as `str(int(v))`, which reads back as that integer. */
  lemma RenderBitRoundTrip(col: string, i: int)
    ensures ParseInt(RenderValue(TypedColumn(col, Some("bit"), Int(i))).value.1) == Some(i)
  {
    IntToStringRoundTrip(i);
  }

  // ---- rendering a row ----

  /** `map(render, typed_columns)` consumed in order: the first value that cannot be rendered raises. */
  function RenderAll(tl: seq<TypedColumn>, render: TypedColumn -> Result<(string, string), PyError>)
    : (r: Result<seq<(string, string)>, PyError>)
    ensures r.Ok? ==> |r.value| == |tl| && forall i :: 0 <= i < |tl| ==> render(tl[i]) == Ok(r.value[i])
    ensures r.Err? ==>
      exists i :: 0 <= i < |tl| && render(tl[i]) == Err(r.error) && forall j :: 0 <= j < i ==> render(tl[j]).Ok?
  {
    if tl == [] then Ok([])
    else
      match render(tl[0])
      case Err(e) => Err(e)
      case Ok(p) =>
        match RenderAll(tl[1..], render)
        case Err(e) =>
          assert forall i :: 1 <= i < |tl| ==> tl[i] == tl[1..][i - 1];
          Err(e)
        case Ok(rest) => Ok([p] + rest)
  }

  /** `f"[{'], ['.join(t.column for t in typed_columns)}]"` */
  function ColumnList(tl: seq<TypedColumn>): string
  {
    "[" + Join("], [", ColumnNames(tl)) + "]"
  }

  function ColumnNames(tl: seq<TypedColumn>): (ns: seq<string>)
    ensures |ns| == |tl| && forall i :: 0 <= i < |tl| ==> ns[i] == tl[i].column
  {
    seq(|tl|, i requires 0 <= i < |tl| => tl[i].column)
  }

  /** `[f'[{c}]={v}' for c, v in pairs]` */
  function Assignments(ps: seq<(string, string)>): (r: seq<string>)
    ensures |r| == |ps| && forall i :: 0 <= i < |ps| ==> r[i] == "[" + ps[i].0 + "]=" + ps[i].1
  {
    seq(|ps|, i requires 0 <= i < |ps| => "[" + ps[i].0 + "]=" + ps[i].1)
  }

  /** The id in a where clause: an `int` id is bare, anything else (even a `bool`) is single-quoted. */
  function WhereId(id: Scalar): (r: string)
    ensures id.Int? ==> ParseInt(r) == Some(id.i)
    ensures !id.Int? ==> r == "'" + PyStr(id) + "'"
  {
    IntToStringRoundTrip(if id.Int? then id.i else 0);
    if id.Int? then IntToString(id.i) else "'" + PyStr(id) + "'"
  }

  /**
   * `sql_update_str` with the quoting renderer: the rendered values go
   * through `dict(...)`, so a repeated column keeps its first position and
   * its last value.
   */
  function UpdateStr(table: string, idColumn: string, tl: seq<TypedColumn>, id: Scalar): (r: Result<string, PyError>)
    ensures r.Ok? <==> RenderAll(tl, RenderValue).Ok?
    ensures r.Err? ==> r == Err(RenderAll(tl, RenderValue).error)
    ensures r.Ok? ==> StartsEnds(r.value, "update " + table + " set ", " where " + idColumn + "=" + WhereId(id))
  {
    match RenderAll(tl, RenderValue)
    case Err(e) => Err(e)
    case Ok(ps) =>
      FramedText("update " + table + " set ", Join(", ", Assignments(FromPairs(ps))), " where " + idColumn + "=" + WhereId(id));
      Ok("update " + table + " set " + Join(", ", Assignments(FromPairs(ps))) + (" where " + idColumn + "=" + WhereId(id)))
  }

  /** `s` begins with `pre` and ends with `post`, which do not overlap. */
  predicate StartsEnds(s: string, pre: string, post: string)
  {
    |pre| + |post| <= |s| && s[..|pre|] == pre && s[|s| - |post|..] == post
  }

  lemma FramedText(pre: string, mid: string, post: string)
    ensures StartsEnds(pre + mid + post, pre, post)
  {
    var s := pre + mid + post;
    assert s[..|pre|] == pre;
    assert s[|s| - |post|..] == post;
  }

  /**
   * With distinct column names, an update assigns each column once, in
   * column order, its rendered value, and selects the row by its id.
   */
  lemma UpdateAligned(table: string, idColumn: string, tl: seq<TypedColumn>, id: Scalar)
    requires Distinct(ColumnNames(tl))
    requires RenderAll(tl, RenderValue).Ok?
    ensures var asg := Assignments(RenderAll(tl, RenderValue).value);
      && UpdateStr(table, idColumn, tl, id) ==
           Ok("update " + table + " set " + Join(", ", asg) + (" where " + idColumn + "=" + WhereId(id)))
      && |asg| == |tl|
      && forall i :: 0 <= i < |tl| ==> asg[i] == "[" + tl[i].column + "]=" + RenderValue(tl[i]).value.1
  {
    var ps := RenderAll(tl, RenderValue).value;
    assert Keys(ps) == ColumnNames(tl);
    FromPairsDistinct(ps);
  }

  /** `sql_columns_and_values` with the quoting renderer. */
  function ColumnsAndValues(tl: seq<TypedColumn>): (r: Result<(string, string), PyError>)
    ensures r.Ok? <==> RenderAll(tl, RenderValue).Ok?
  {
    match RenderAll(tl, RenderValue)
    case Err(e) => Err(e)
    case Ok(ps) => Ok((ColumnList(tl), Join(", ", Values(FromPairs(ps)))))
  }

  /** `sql_insertion_str` with the quoting renderer. */
  function InsertionStr(table: string, tl: seq<TypedColumn>): (r: Result<string, PyError>)
    ensures r.Ok? <==> RenderAll(tl, RenderValue).Ok?
  {
    match ColumnsAndValues(tl)
    case Err(e) => Err(e)
    case Ok(cv) => Ok("insert into " + table + " (" + cv.0 + ") values (" + cv.1 + ")")
  }

  /**
   * With distinct column names the values list of an insert has exactly one
   * rendered value per column, in column order.
   */
  lemma InsertValuesAligned(tl: seq<TypedColumn>)
    requires Distinct(ColumnNames(tl))
    requires RenderAll(tl, RenderValue).Ok?
    ensures var ps := RenderAll(tl, RenderValue).value;
      FromPairs(ps) == ps && |Values(ps)| == |tl| &&
      forall i :: 0 <= i < |tl| ==> RenderValue(tl[i]) == Ok((tl[i].column, Values(ps)[i]))
  {
    var ps := RenderAll(tl, RenderValue).value;
    assert Keys(ps) == ColumnNames(tl);
    FromPairsDistinct(ps);
  }

  // ---- the new file's statements, as written ----

  /** `str(v)` of every rendered value, as an f-string prints it. */
  function ParsedPairs(ps: seq<(string, Scalar)>): (r: seq<(string, string)>)
    ensures |r| == |ps| && forall i :: 0 <= i < |ps| ==> r[i] == (ps[i].0, PyStr(ps[i].1))
  {
    seq(|ps|, i requires 0 <= i < |ps| => (ps[i].0, PyStr(ps[i].1)))
  }

  function ParseAll(tl: seq<TypedColumn>): (r: Result<seq<(string, Scalar)>, PyError>)
    ensures r.Ok? ==> |r.value| == |tl| && forall i :: 0 <= i < |tl| ==> ParseValue(tl[i]) == Ok(r.value[i])
    ensures r.Err? ==>
      exists i :: 0 <= i < |tl| && ParseValue(tl[i]) == Err(r.error) && forall j :: 0 <= j < i ==> ParseValue(tl[j]).Ok?
  {
    if tl == [] then Ok([])
    else
      match ParseValue(tl[0])
      case Err(e) => Err(e)
      case Ok(p) =>
        match ParseAll(tl[1..])
        case Err(e) =>
          assert forall i :: 1 <= i < |tl| ==> tl[i] == tl[1..][i - 1];
          Err(e)
        case Ok(rest) => Ok([p] + rest)
  }

  /** `sql_update_str` of src/pydbcon/connector.py: values are printed with `str()`, so text is unquoted. */
  function UpdateStrAsWritten(table: string, idColumn: string, tl: seq<TypedColumn>, id: Scalar)
    : (r: Result<string, PyError>)
    ensures r.Ok? <==> ParseAll(tl).Ok?
    ensures r.Err? ==> r == Err(ParseAll(tl).error)
    ensures r.Ok? ==> StartsEnds(r.value, "update " + table + " set ", " where " + idColumn + "=" + WhereId(id))
  {
    match ParseAll(tl)
    case Err(e) => Err(e)
    case Ok(ps) =>
      FramedText("update " + table + " set ", Join(", ", Assignments(ParsedPairs(FromPairs(ps)))), " where " + idColumn + "=" + WhereId(id));
      Ok("update " + table + " set " + Join(", ", Assignments(ParsedPairs(FromPairs(ps)))) + (" where " + idColumn + "=" + WhereId(id)))
  }

  /**
   * With distinct column names, the update as written assigns each column
   * once, in column order, the `str()` of its parsed value (text unquoted).
   */
  lemma UpdateAlignedAsWritten(table: string, idColumn: string, tl: seq<TypedColumn>, id: Scalar)
    requires Distinct(ColumnNames(tl))
    requires ParseAll(tl).Ok?
    ensures var asg := Assignments(ParsedPairs(ParseAll(tl).value));
      && UpdateStrAsWritten(table, idColumn, tl, id) ==
           Ok("update " + table + " set " + Join(", ", asg) + (" where " + idColumn + "=" + WhereId(id)))
      && |asg| == |tl|
      && forall i :: 0 <= i < |tl| ==> asg[i] == "[" + tl[i].column + "]=" + PyStr(ParseValue(tl[i]).value.1)
  {
    var ps := ParseAll(tl).value;
    assert Keys(ps) == ColumnNames(tl);
    FromPairsDistinct(ps);
  }

  /** Every value is text: `', '.join(values)` raises TypeError otherwise. */
  function JoinTexts(vs: seq<Scalar>): (r: Result<string, PyError>)
    ensures r.Ok? <==> forall i :: 0 <= i < |vs| ==> vs[i].Str?
    ensures r.Err? ==> r.error == TypeError
  {
    if forall i :: 0 <= i < |vs| ==> vs[i].Str? then Ok(Join(", ", Texts(vs)))
    else Err(TypeError)
  }

  /** The texts of values that are all text. */
  function Texts(vs: seq<Scalar>): (ts: seq<string>)
    requires forall i :: 0 <= i < |vs| ==> vs[i].Str?
    ensures |ts| == |vs| && forall i :: 0 <= i < |vs| ==> vs[i] == Str(ts[i])
  {
    seq(|vs|, i requires 0 <= i < |vs| => vs[i].s)
  }

  /**
   * `sql_columns_and_values` of src/pydbcon/connector.py as written: the
   * errors of parsing the values, then TypeError when a parsed value is
   * not text.
   */
  function ColumnsAndValuesAsWritten(tl: seq<TypedColumn>): (r: Result<(string, string), PyError>)
    ensures ParseAll(tl).Err? ==> r == Err(ParseAll(tl).error)
    ensures ParseAll(tl).Ok? && r.Err? ==> r.error == TypeError
    ensures r.Ok? ==> r.value.0 == ColumnList(tl)
  {
    match ParseAll(tl)
    case Err(e) => Err(e)
    case Ok(ps) =>
      match JoinTexts(Values(FromPairs(ps)))
      case Err(e) => Err(e)
      case Ok(vals) => Ok((ColumnList(tl), vals))
  }

  /** `sql_insertion_str` of src/pydbcon/connector.py as written. */
  function InsertionStrAsWritten(table: string, tl: seq<TypedColumn>): (r: Result<string, PyError>)
    ensures r.Ok? ==> ParseAll(tl).Ok?
    ensures r.Err? ==> r.error == TypeError || (ParseAll(tl).Err? && r.error == ParseAll(tl).error)
  {
    match ColumnsAndValuesAsWritten(tl)
    case Err(e) => Err(e)
    case Ok(cv) => Ok("insert into " + table + " (" + cv.0 + ") values (" + cv.1 + ")")
  }

  /** Every value of the record parses, to text. */
  predicate ParsesToText(tl: seq<TypedColumn>)
  {
    forall i :: 0 <= i < |tl| ==> ParseValue(tl[i]).Ok? && ParseValue(tl[i]).value.1.Str?
  }

  /**
   * With distinct column names, the insert as written is built exactly when
   * every value parses to text, and then lists each text unquoted in column
   * order; a record whose values parse but not all to text raises TypeError.
   */
  lemma InsertAsWritten(table: string, tl: seq<TypedColumn>)
    requires Distinct(ColumnNames(tl))
    ensures InsertionStrAsWritten(table, tl).Ok? <==> ParsesToText(tl)
    ensures ParseAll(tl).Ok? && !ParsesToText(tl) ==> InsertionStrAsWritten(table, tl) == Err(TypeError)
    ensures ParsesToText(tl) ==>
      var vs := Values(ParseAll(tl).value);
      && InsertionStrAsWritten(table, tl) ==
           Ok("insert into " + table + " (" + ColumnList(tl) + ") values (" + Join(", ", Texts(vs)) + ")")
      && |vs| == |tl|
      && forall i :: 0 <= i < |tl| ==> vs[i] == ParseValue(tl[i]).value.1
  {
    if ParseAll(tl).Ok? {
      var ps := ParseAll(tl).value;
      assert Keys(ps) == ColumnNames(tl);
      FromPairsDistinct(ps);
    } else {
      var i :| 0 <= i < |tl| && ParseValue(tl[i]) == Err(ParseAll(tl).error);
    }
  }

  /**
   * The new renderer breaks the insert statement of a record whose values
   * all pass it and which holds a non-blank value in an integer-typed column
   * (not `bit` or `datetime`): that value is rendered as an integer, and
   * joining the values then raises TypeError.
   */
  lemma IntValueInsertRaises(table: string, tl: seq<TypedColumn>, k: int)
    requires Distinct(ColumnNames(tl))
    requires forall i :: 0 <= i < |tl| ==> ParseValue(tl[i]).Ok?
    requires 0 <= k < |tl| && tl[k].sqlType.Some? && !IsBlank(tl[k].value)
    requires tl[k].sqlType.value != "datetime" && tl[k].sqlType.value != "bit" && ContainsSub(tl[k].sqlType.value, "int")
    ensures InsertionStrAsWritten(table, tl) == Err(TypeError)
  {
    var t := tl[k];
    assert ParseValue(t).value.1.Int?;
    assert !ParsesToText(tl);
    InsertAsWritten(table, tl);
  }

  /**
   * The one-column case, `int_column = 10` of the renderer's examples with
   * its type in the field the record type declares for it: the insert
   * statement raises TypeError.
   */
  lemma IntColumnInsertRaises(table: string, col: string, ty: string, i: int)
    requires ty != "datetime" && ty != "bit" && ContainsSub(ty, "int")
    ensures InsertionStrAsWritten(table, [TypedColumn(col, Some(ty), Int(i))]) == Err(TypeError)
  {
    var t := TypedColumn(col, Some(ty), Int(i));
    var tl := [t];
    assert tl[0] == t && tl[1..] == [];
    var p := (col, Int(i));
    assert ParseValue(t) == Ok(p);
    assert ParseAll(tl[1..]) == Ok([]);
    assert [p] + [] == [p];
    assert ParseAll(tl) == Ok([p]);
    SingletonDict(p);
    assert Values([p]) == [Int(i)];
  }

  /**
   * The new renderer writes a text value into the values of an insert
   * statement as it is, without quotes (`'text string'` of the renderer's
   * examples comes out as `text string`).
   */
  lemma TextColumnInsertUnquoted(col: string, ty: string, s: string)
    requires ty != "datetime" && ty != "bit" && !ContainsSub(ty, "int") && s != ""
    ensures ColumnsAndValuesAsWritten([TypedColumn(col, Some(ty), Str(s))]) == Ok(("[" + col + "]", s))
  {
    var t := TypedColumn(col, Some(ty), Str(s));
    var tl := [t];
    assert tl[0] == t && tl[1..] == [];
    var p := (col, Str(s));
    assert ParseValue(t) == Ok(p);
    assert ParseAll(tl[1..]) == Ok([]);
    assert [p] + [] == [p];
    assert ParseAll(tl) == Ok([p]);
    SingletonDict(p);
    assert Values([p]) == [Str(s)];
    var vs := [Str(s)];
    assert seq(|vs|, i requires 0 <= i < |vs| => vs[i].s) == [s];
    assert ColumnNames(tl) == [col];
  }

  /** The quoting renderer writes an integer column's value bare, as the renderer's examples show. */
  lemma IntColumnInsertValues(col: string, ty: string, i: int)
    requires ty != "bit" && ContainsSub(ty, "int")
    ensures ColumnsAndValues([TypedColumn(col, Some(ty), Int(i))]) == Ok(("[" + col + "]", IntToString(i)))
  {
    var t := TypedColumn(col, Some(ty), Int(i));
    var tl := [t];
    assert tl[0] == t && tl[1..] == [];
    var q := (col, IntToString(i));
    assert RenderValue(t) == Ok(q);
    assert RenderAll(tl[1..], RenderValue) == Ok([]);
    assert [q] + [] == [q];
    assert RenderAll(tl, RenderValue) == Ok([q]);
    SingletonDict(q);
    assert Values([q]) == [IntToString(i)];
    assert ColumnNames(tl) == [col];
  }

  /**
   * The quoting renderer puts a text value between `N'` and `'`; a text
   * without single quotes is kept as it is in between.
   */
  lemma TextColumnInsertValues(col: string, ty: string, s: string)
    requires ty != "bit" && !ContainsSub(ty, "int") && s != ""
    ensures ColumnsAndValues([TypedColumn(col, Some(ty), Str(s))]) == Ok(("[" + col + "]", Quoted(s)))
    ensures '\'' !in s ==> Quoted(s) == "N'" + s + "'"
  {
    var t := TypedColumn(col, Some(ty), Str(s));
    var tl := [t];
    assert tl[0] == t && tl[1..] == [];
    var q := (col, Quoted(s));
    assert RenderValue(t) == Ok(q);
    assert RenderAll(tl[1..], RenderValue) == Ok([]);
    assert [q] + [] == [q];
    assert RenderAll(tl, RenderValue) == Ok([q]);
    SingletonDict(q);
    assert Values([q]) == [Quoted(s)];
    assert ColumnNames(tl) == [col];
    if '\'' !in s {
      assert ReplaceChar(s, '\'', '"') == s;
    }
  }

  /** `dict([p])` is `[p]`. */
  lemma SingletonDict<V>(p: (string, V))
    ensures FromPairs([p]) == [p]
  {
    assert [p][..0] == [];
  }

  /** A text without the needle's first character does not contain the needle. */
  lemma {:induction false} NoFirstChar(hay: string, needle: string)
    requires needle != [] && needle[0] !in hay
    ensures !ContainsSub(hay, needle)
  {
    if hay != [] {
      NoFirstChar(hay[1..], needle);
    }
  }

  lemma NoIntInVarchar()
    ensures !ContainsSub("varchar(max)", "int")
  {
    NoFirstChar("varchar(max)", "int");
  }

  // ---- DDL and lookups ----

  /** `create table T([c1] type1, [c2] type2, ...)` */
  function CreateTableStr(table: string, tl: seq<TypedColumn>): string
  {
    "create table " + table + "(" + Join(", ", ColumnDefs(tl)) + ")"
  }

  function ColumnDefs(tl: seq<TypedColumn>): (r: seq<string>)
    ensures |r| == |tl| && forall i :: 0 <= i < |tl| ==> r[i] == "[" + tl[i].column + "] " + TypeText(tl[i].sqlType)
  {
    seq(|tl|, i requires 0 <= i < |tl| => "[" + tl[i].column + "] " + TypeText(tl[i].sqlType))
  }

  /** No column name or type text holds an opening bracket. */
  predicate NoOpenBracket(tl: seq<TypedColumn>)
  {
    forall i :: 0 <= i < |tl| ==> '[' !in tl[i].column && '[' !in TypeText(tl[i].sqlType)
  }

  /** What follows the `[` of each column definition: the name, `] `, the type, then `, ` or `)`. */
  function DefPieces(tl: seq<TypedColumn>): seq<string>
  {
    seq(|tl|, i requires 0 <= i < |tl| => tl[i].column + "] " + TypeText(tl[i].sqlType) + (if i < |tl| - 1 then ", " else ")"))
  }

  /** The text after the `[` of a column definition, before its separator. */
  function DefBody(t: TypedColumn): string
  {
    t.column + "] " + TypeText(t.sqlType)
  }

  lemma DefsText(tl: seq<TypedColumn>)
    requires |tl| > 0
    ensures |tl| == 1 ==> Join(", ", ColumnDefs(tl)) + ")" == ['['] + (DefBody(tl[0]) + ")")
    ensures |tl| > 1 ==> Join(", ", ColumnDefs(tl)) + ")" == ['['] + (DefBody(tl[0]) + ", " + (Join(", ", ColumnDefs(tl[1..])) + ")"))
  {
    var defs := ColumnDefs(tl);
    assert defs[0] == ['['] + DefBody(tl[0]);
    if |tl| > 1 {
      assert defs[1..] == ColumnDefs(tl[1..]);
      assert Join(", ", defs) == defs[0] + ", " + Join(", ", ColumnDefs(tl[1..]));
    }
  }

  /** A text starting with `[` splits into an empty head and the pieces of the rest. */
  lemma SplitOpen(x: string)
    requires |x| > 0 && x[0] == '['
    ensures Split(x, '[') == [""] + Split(x[1..], '[')
  {
  }

  /** A piece without `[` followed by `[` is split off whole. */
  lemma SplitAfter(a: string, x: string)
    requires '[' !in a && |x| > 0 && x[0] == '['
    ensures Split(a + x, '[') == [a] + Split(x[1..], '[')
  {
    assert a + x == a + ['['] + x[1..];
    SplitPiece(a, '[', x[1..]);
  }

  lemma DefPiecesCons(tl: seq<TypedColumn>)
    requires |tl| > 1
    ensures DefPieces(tl) == [DefBody(tl[0]) + ", "] + DefPieces(tl[1..])
  {
    var a := DefPieces(tl);
    var b := [DefBody(tl[0]) + ", "] + DefPieces(tl[1..]);
    forall i | 0 <= i < |tl|
      ensures a[i] == b[i]
    {
      if i > 0 {
        assert tl[1..][i - 1] == tl[i];
      }
    }
  }

  lemma {:induction false} SplitDefs(tl: seq<TypedColumn>)
    requires |tl| > 0 && NoOpenBracket(tl)
    ensures Split(Join(", ", ColumnDefs(tl)) + ")", '[') == [""] + DefPieces(tl)
  {
    var b0 := DefBody(tl[0]);
    assert '[' !in b0;
    DefsText(tl);
    var t := Join(", ", ColumnDefs(tl)) + ")";
    SplitOpen(t);
    if |tl| == 1 {
      assert t[1..] == b0 + ")";
      SplitNone(b0 + ")", '[');
      assert DefPieces(tl) == [b0 + ")"];
    } else {
      var rest := tl[1..];
      assert forall i :: 0 <= i < |rest| ==> rest[i] == tl[i + 1];
      SplitDefs(rest);
      DefsText(rest);
      var j := Join(", ", ColumnDefs(rest)) + ")";
      SplitOpen(j);
      assert Split(j[1..], '[') == Split(j, '[')[1..] == DefPieces(rest);
      assert t[1..] == b0 + ", " + j;
      SplitAfter(b0 + ", ", j);
      DefPiecesCons(tl);
    }
  }

  /**
   * Reading a create statement back: splitting it at `[` gives the head
   * `create table T(` and then one piece per column, in type-list order,
   * each starting with the column's name, `] ` and its type.
   */
  lemma CreateTableSplits(table: string, tl: seq<TypedColumn>)
    requires '[' !in table && NoOpenBracket(tl)
    ensures var pieces := Split(CreateTableStr(table, tl), '[');
      && |pieces| == |tl| + 1
      && pieces[0] == "create table " + table + (if tl == [] then "()" else "(")
      && forall i :: 0 <= i < |tl| ==>
           pieces[i + 1] == tl[i].column + "] " + TypeText(tl[i].sqlType) + (if i < |tl| - 1 then ", " else ")")
  {
    var head := "create table " + table + "(";
    assert '[' !in head;
    if tl == [] {
      assert CreateTableStr(table, tl) == head + ")";
      SplitNone(head + ")", '[');
    } else {
      CreateTableParts(table, tl);
      var pieces := Split(CreateTableStr(table, tl), '[');
      forall i | 0 <= i < |tl|
        ensures pieces[i + 1] == tl[i].column + "] " + TypeText(tl[i].sqlType) + (if i < |tl| - 1 then ", " else ")")
      {
        assert pieces[i + 1] == DefPieces(tl)[i];
      }
    }
  }

  /** The pieces of a `create table` statement with columns: its head, then one per definition. */
  lemma CreateTableParts(table: string, tl: seq<TypedColumn>)
    requires tl != [] && '[' !in table && NoOpenBracket(tl)
    ensures Split(CreateTableStr(table, tl), '[') == ["create table " + table + "("] + DefPieces(tl)
  {
    var head := "create table " + table + "(";
    assert '[' !in head;
    SplitDefs(tl);
    var w := Join(", ", ColumnDefs(tl)) + ")";
    DefsText(tl);
    SplitOpen(w);
    assert Split(w[1..], '[') == Split(w, '[')[1..] == DefPieces(tl);
    assert CreateTableStr(table, tl) == head + w;
    SplitAfter(head, w);
  }

  /** `alter table [T] add [c] type NULL` */
  function AlterStr(table: string, column: string, sqlType: Option<string>): string
  {
    "alter table [" + table + "] add [" + column + "] " + TypeText(sqlType) + " NULL"
  }

  /** The column lookup of `get_table_columns`. */
  function SelectColumnsStr(table: string): string
  {
    "select column_name from information_schema.columns where TABLE_NAME='" + table + "'"
  }

  /** The id lookup of `get_table_ids`. */
  function SelectIdsStr(table: string, idColumn: string): string
  {
    "select [" + idColumn + "] from [" + table + "]"
  }

  // ---- batch statements ----

  /** `('?,' * n)[:-1]` */
  function Placeholders(n: nat): (r: string)
  {
    var s := Repeat("?,", n);
    if s == [] then s else s[..|s| - 1]
  }

  lemma {:induction false} RepeatCounts(n: nat)
    ensures Count(Repeat("?,", n), '?') == n && Count(Repeat("?,", n), ',') == n
    ensures n > 0 ==> Repeat("?,", n) == Repeat("?,", n - 1) + "?,"
  {
    if n > 0 {
      RepeatCounts(n - 1);
      CountAppend("?,", Repeat("?,", n - 1), '?');
      CountAppend("?,", Repeat("?,", n - 1), ',');
      RepeatSnoc(n - 1);
    }
  }

  lemma {:induction false} RepeatSnoc(n: nat)
    ensures Repeat("?,", n + 1) == Repeat("?,", n) + "?,"
  {
    if n > 0 {
      RepeatSnoc(n - 1);
    }
  }

  /** The placeholder list has exactly `n` question marks, separated by `n - 1` commas. */
  lemma PlaceholderCount(n: nat)
    ensures Count(Placeholders(n), '?') == n
    ensures n > 0 ==> Count(Placeholders(n), ',') == n - 1 && |Placeholders(n)| == 2 * n - 1
    ensures n == 0 ==> Placeholders(n) == ""
  {
    RepeatCounts(n);
    if n > 0 {
      var s := Repeat("?,", n);
      assert s == Repeat("?,", n - 1) + "?,";
      assert s[..|s| - 1] == Repeat("?,", n - 1) + "?";
      CountAppend(Repeat("?,", n - 1), "?", '?');
      CountAppend(Repeat("?,", n - 1), "?", ',');
    }
  }

  /** `f"[{'],['.join(columns)}]"` */
  function BatchColumns(cols: seq<string>): string
  {
    "[" + Join("],[", cols) + "]"
  }

  /** The `executemany` insert statement of `execute_batch`. */
  function BatchInsertStr(table: string, cols: seq<string>): string
  {
    "insert into " + table + " (" + BatchColumns(cols) + ") values (" + Placeholders(|cols|) + ")"
  }

  /** `[f'[{c}]=?' for c in columns]` */
  function SetPlaceholders(cols: seq<string>): (r: seq<string>)
    ensures |r| == |cols| && forall i :: 0 <= i < |cols| ==> r[i] == "[" + cols[i] + "]=?"
  {
    seq(|cols|, i requires 0 <= i < |cols| => "[" + cols[i] + "]=?")
  }

  /** The `executemany` update statement of `execute_batch`. */
  function BatchUpdateStr(table: string, cols: seq<string>, idColumn: string): string
  {
    "update " + table + " set " + Join(", ", SetPlaceholders(cols)) + " where [" + idColumn + "]=?"
  }

  /** Names without question marks. */
  predicate NoMarks(names: seq<string>)
  {
    forall i :: 0 <= i < |names| ==> '?' !in names[i]
  }

  /** A separator without question marks adds none to the joined text. */
  lemma {:induction false} JoinMarks(sep: string, parts: seq<string>)
    requires '?' !in sep
    ensures Count(Join(sep, parts), '?') == MarksOf(parts)
  {
    if |parts| > 1 {
      JoinMarks(sep, parts[1..]);
      CountAbsent(sep, '?');
      CountAppend(parts[0], sep, '?');
      CountAppend(parts[0] + sep, Join(sep, parts[1..]), '?');
    } else if |parts| == 1 {
      assert parts[1..] == [];
    }
  }

  /** The number of question marks in all the parts together. */
  function MarksOf(parts: seq<string>): nat
  {
    if parts == [] then 0 else Count(parts[0], '?') + MarksOf(parts[1..])
  }

  /** Names without question marks contribute none. */
  lemma {:induction false} NoMarksNone(cols: seq<string>)
    requires NoMarks(cols)
    ensures MarksOf(cols) == 0
  {
    if cols != [] {
      CountAbsent(cols[0], '?');
      NoMarksNone(cols[1..]);
    }
  }

  /** Each `[c]=?` fragment has one question mark. */
  lemma {:induction false} SetPlaceholderMarks(cols: seq<string>)
    requires NoMarks(cols)
    ensures MarksOf(SetPlaceholders(cols)) == |cols|
  {
    if cols != [] {
      assert SetPlaceholders(cols)[1..] == SetPlaceholders(cols[1..]);
      SetPlaceholderMarks(cols[1..]);
      CountAbsent(cols[0], '?');
      Framed("[", cols[0], "]=?", "");
      assert Count("]=?", '?') == 1;
      assert SetPlaceholders(cols)[0] == "[" + cols[0] + "]=?" + "";
    }
  }

  /**
   * The question marks of `k1 + x + k2 + y`: those of the parts, where the
   * first is known to have none.
   */
  lemma Framed(k1: string, x: string, k2: string, y: string)
    requires '?' !in k1
    ensures Count(k1 + x + k2 + y, '?') == Count(x, '?') + Count(k2, '?') + Count(y, '?')
  {
    CountAbsent(k1, '?');
    CountAppend(k1, x, '?');
    CountAppend(k1 + x, k2, '?');
    CountAppend(k1 + x + k2, y, '?');
  }

  /** The question marks of a statement made of four fixed texts and three variable parts. */
  lemma Statement(k1: string, x: string, k2: string, y: string, k3: string, z: string, k4: string)
    requires '?' !in k1 && '?' !in k2 && '?' !in k3
    ensures Count(k1 + x + k2 + y + k3 + z + k4, '?') == Count(x, '?') + Count(y, '?') + Count(z, '?') + Count(k4, '?')
  {
    CountAbsent(k2, '?');
    CountAbsent(k3, '?');
    Framed(k1, x, k2, y);
    CountAppend(k1 + x + k2 + y, k3, '?');
    CountAppend(k1 + x + k2 + y + k3, z, '?');
    CountAppend(k1 + x + k2 + y + k3 + z, k4, '?');
  }

  /**
   * The batch insert has one parameter per column, which is the length of
   * the value tuples `execute_batch` passes to it.
   */
  lemma BatchInsertMarks(table: string, cols: seq<string>)
    requires NoMarks(cols) && '?' !in table
    ensures Count(BatchInsertStr(table, cols), '?') == |cols|
  {
    CountAbsent(table, '?');
    JoinMarks("],[", cols);
    NoMarksNone(cols);
    Framed("[", Join("],[", cols), "]", "");
    assert BatchColumns(cols) == "[" + Join("],[", cols) + "]" + "";
    PlaceholderCount(|cols|);
    assert ")"[1..] == [];
    Statement("insert into ", table, " (", BatchColumns(cols), ") values (", Placeholders(|cols|), ")");
  }

  /**
   * The batch update has one parameter per column plus one for the id,
   * which is the length of the tuples `execute_batch` passes to it (a row's
   * values, then its id).
   */
  lemma BatchUpdateMarks(table: string, cols: seq<string>, idColumn: string)
    requires NoMarks(cols) && '?' !in table && '?' !in idColumn
    ensures Count(BatchUpdateStr(table, cols, idColumn), '?') == |cols| + 1
  {
    CountAbsent(table, '?');
    CountAbsent(idColumn, '?');
    JoinMarks(", ", SetPlaceholders(cols));
    SetPlaceholderMarks(cols);
    assert Count("]=?", '?') == 1;
    Statement("update ", table, " set ", Join(", ", SetPlaceholders(cols)), " where [", idColumn, "]=?");
  }

  // ---- the statements the connector sends ----

  /** A statement the connector sends, before it is rendered to SQL text. */
  datatype Query =
    | CreateQuery(table: string, columns: seq<TypedColumn>)
    | AlterQuery(table: string, column: string, sqlType: Option<string>)
    | ColumnsQuery(table: string)
    | IdsQuery(table: string, idColumn: string)
    | InsertQuery(table: string, row: seq<TypedColumn>)
    | UpdateQuery(table: string, idColumn: string, row: seq<TypedColumn>, id: Scalar)
    | BatchInsertQuery(table: string, names: seq<string>)
    | BatchUpdateQuery(table: string, names: seq<string>, idColumn: string)

  /**
   * The SQL text of a statement, with the builders of
   * src/pydbcon/connector.py as written. Only the single-row insert and
   * update can fail: the update exactly when a value cannot be parsed, the
   * insert (for distinct columns) exactly when a value does not parse to text.
   */
  function Sql(q: Query): (r: Result<string, PyError>)
    ensures q.UpdateQuery? ==> (r.Ok? <==> ParseAll(q.row).Ok?)
    ensures q.InsertQuery? && Distinct(ColumnNames(q.row)) ==> (r.Ok? <==> ParsesToText(q.row))
    ensures q.InsertQuery? && r.Ok? ==> ParseAll(q.row).Ok?
    ensures !(q.InsertQuery? || q.UpdateQuery?) ==> r.Ok?
  {
    match q
    case CreateQuery(table, columns) => Ok(CreateTableStr(table, columns))
    case AlterQuery(table, column, sqlType) => Ok(AlterStr(table, column, sqlType))
    case ColumnsQuery(table) => Ok(SelectColumnsStr(table))
    case IdsQuery(table, idColumn) => Ok(SelectIdsStr(table, idColumn))
    case InsertQuery(table, row) =>
      if Distinct(ColumnNames(row)) then InsertAsWritten(table, row); InsertionStrAsWritten(table, row)
      else InsertionStrAsWritten(table, row)
    case UpdateQuery(table, idColumn, row, id) => UpdateStrAsWritten(table, idColumn, row, id)
    case BatchInsertQuery(table, names) => Ok(BatchInsertStr(table, names))
    case BatchUpdateQuery(table, names, idColumn) => Ok(BatchUpdateStr(table, names, idColumn))
  }

  // ---- connection string ----

  /** Each field followed by the terminator: `f1;f2;...;fn;` */
  function Terminated(fields: seq<string>, c: char): string
  {
    if fields == [] then "" else fields[0] + [c] + Terminated(fields[1..], c)
  }

  /** The `key=value` fields of a connection string, in order. */
  function ConnectionFields(driver: string, server: string, database: string, user: string, password: string, trusted: bool)
    : seq<string>
  {
    ["Driver=" + driver, "Server=" + server, "Database=" + database, "UID=" + user, "PWD=" + password,
     "Trusted_Connection=" + (if trusted then "yes" else "no")]
  }

  /** `create_connection_string`: every field is followed by `;`. */
  function ConnectionString(driver: string, server: string, database: string, user: string, password: string, trusted: bool): string
  {
    Terminated(ConnectionFields(driver, server, database, user, password, trusted), ';')
  }

  /** Splitting terminated fields that hold no terminator gives back the fields and an empty tail. */
  lemma {:induction false} SplitTerminated(fields: seq<string>, c: char)
    requires forall i :: 0 <= i < |fields| ==> c !in fields[i]
    ensures Split(Terminated(fields, c), c) == fields + [""]
  {
    if fields != [] {
      SplitTerminated(fields[1..], c);
      SplitPiece(fields[0], c, Terminated(fields[1..], c));
      assert [fields[0]] + (fields[1..] + [""]) == fields + [""];
    }
  }

  /**
   * When no value holds a `;`, splitting the connection string at `;` gives
   * back each `key=value` field in order (and the empty tail after the last
   * `;`), and the trust flag reads `yes` exactly when the connection is trusted.
   */
  lemma ConnectionStringFields(driver: string, server: string, database: string, user: string, password: string, trusted: bool)
    requires ';' !in driver && ';' !in server && ';' !in database && ';' !in user && ';' !in password
    ensures Split(ConnectionString(driver, server, database, user, password, trusted), ';') ==
      ConnectionFields(driver, server, database, user, password, trusted) + [""]
    ensures (Split(ConnectionString(driver, server, database, user, password, trusted), ';')[5]
      == "Trusted_Connection=yes") <==> trusted
  {
    var fs := ConnectionFields(driver, server, database, user, password, trusted);
    forall i | 0 <= i < |fs|
      ensures ';' !in fs[i]
    {
    }
    SplitTerminated(fs, ';');
    assert |"Trusted_Connection=no"| != |"Trusted_Connection=yes"|;
  }
}
