/**
 * Composite ids: a new id built by joining the text of several fields of a
 * record, either into a copy of the record (`composite_id_dict`) or as an
 * extra typed column (`composite_id_type_column`).
 */
module CompositeId {
  import opened Wrappers
  import opened Text
  import opened PyValues
  import opened PyDict
  import opened SqlText

  /** All of `keys` are keys of the record. */
  predicate HasAllKeys(d: Dict<string, Scalar>, keys: seq<string>)
  {
    forall i :: 0 <= i < |keys| ==> keys[i] in Keys(d)
  }

  /**
   * `str(d[k]) for k in keys`, in the order of `keys`; the first missing key
   * raises KeyError.
   */
  function KeyTexts(d: Dict<string, Scalar>, keys: seq<string>): (r: Result<seq<string>, PyError>)
    ensures r.Ok? <==> HasAllKeys(d, keys)
    ensures r.Err? ==> r.error == KeyError
    ensures r.Ok? ==> |r.value| == |keys|
    ensures r.Ok? ==> forall i :: 0 <= i < |keys| ==> Get(d, keys[i]).Some? && r.value[i] == PyStr(Get(d, keys[i]).value)
  {
    if keys == [] then Ok([])
    else
      match Get(d, keys[0])
      case None => Err(KeyError)
      case Some(v) =>
        match KeyTexts(d, keys[1..])
        case Err(e) => Err(e)
        case Ok(rest) => Ok([PyStr(v)] + rest)
  }

  /**
   * `dict(**{idName: sep.join(...)}, **d)`: KeyError when a listed key is
   * missing, TypeError when `idName` is already a key of `d` (the keyword
   * argument would be given twice); otherwise `d` with the new id in front
   * and every other entry untouched.
   */
  function CompositeIdDict(d: Dict<string, Scalar>, idName: string, idKeys: seq<string>, sep: string)
    : (r: Result<Dict<string, Scalar>, PyError>)
    requires IsDict(d)
    ensures !HasAllKeys(d, idKeys) ==> r == Err(KeyError)
    ensures HasAllKeys(d, idKeys) && idName in Keys(d) ==> r == Err(TypeError)
    ensures r.Ok? <==> HasAllKeys(d, idKeys) && idName !in Keys(d)
    ensures r.Ok? ==> IsDict(r.value) && Keys(r.value) == [idName] + Keys(d)
    ensures r.Ok? ==> forall k :: k != idName ==> Get(r.value, k) == Get(d, k)
    ensures r.Ok? ==> Get(r.value, idName) == Some(Str(Join(sep, KeyTexts(d, idKeys).value)))
  {
    match KeyTexts(d, idKeys)
    case Err(e) => Err(e)
    case Ok(texts) =>
      if idName in Keys(d) then Err(TypeError)
      else
        var r := [(idName, Str(Join(sep, texts)))] + d;
        assert Keys(r) == [idName] + Keys(d);
        assert r[1..] == d;
        Ok(r)
  }

  /**
   * With a one-character separator that no joined field contains, splitting
   * the new id at the separator gives back the text of each listed field,
   * in the order of `idKeys`.
   */
  lemma CompositeIdDictSplits(d: Dict<string, Scalar>, idName: string, idKeys: seq<string>, c: char)
    requires IsDict(d) && HasAllKeys(d, idKeys) && idName !in Keys(d) && |idKeys| > 0
    requires forall i :: 0 <= i < |idKeys| ==> c !in PyStr(Get(d, idKeys[i]).value)
    ensures CompositeIdDict(d, idName, idKeys, [c]).Ok?
    ensures var id := Get(CompositeIdDict(d, idName, idKeys, [c]).value, idName).value;
      id.Str? && Split(id.s, c) == seq(|idKeys|, i requires 0 <= i < |idKeys| => PyStr(Get(d, idKeys[i]).value))
  {
    var texts := KeyTexts(d, idKeys).value;
    JoinSplit(c, texts);
    assert texts == seq(|idKeys|, i requires 0 <= i < |idKeys| => PyStr(Get(d, idKeys[i]).value));
  }

  /**
   * `str(x.value) for x in tl if x.column in idKeys`: the selected fields are
   * taken in the order of the type list, not in the order of `idKeys`.
   */
  function SelectedTexts(tl: seq<TypedColumn>, idKeys: seq<string>): (r: seq<string>)
    ensures |r| <= |tl|
  {
    if tl == [] then []
    else (if tl[0].column in idKeys then [PyStr(tl[0].value)] else []) + SelectedTexts(tl[1..], idKeys)
  }

  /** Every selected text is the text of a column listed in `idKeys`. */
  lemma {:induction false} SelectedFrom(tl: seq<TypedColumn>, idKeys: seq<string>, x: string)
    requires x in SelectedTexts(tl, idKeys)
    ensures exists i :: 0 <= i < |tl| && tl[i].column in idKeys && x == PyStr(tl[i].value)
  {
    if !(tl[0].column in idKeys && x == PyStr(tl[0].value)) {
      SelectedFrom(tl[1..], idKeys, x);
      var i :| 0 <= i < |tl[1..]| && tl[1..][i].column in idKeys && x == PyStr(tl[1..][i].value);
      assert tl[1..][i] == tl[i + 1];
    }
  }

  /** `composite_id_type_column`: the joined text as a `varchar(max)` column named `idName`. */
  function CompositeIdTypeColumn(tl: seq<TypedColumn>, idName: string, idKeys: seq<string>, sep: string)
    : (t: TypedColumn)
    ensures t.column == idName && t.sqlType == Some("varchar(max)")
    ensures t.value == Str(Join(sep, SelectedTexts(tl, idKeys)))
  {
    TypedColumn(idName, Some("varchar(max)"), Str(Join(sep, SelectedTexts(tl, idKeys))))
  }

  /** Selection distributes over concatenation: the type list's order is kept. */
  lemma {:induction false} SelectedAppend(a: seq<TypedColumn>, b: seq<TypedColumn>, idKeys: seq<string>)
    ensures SelectedTexts(a + b, idKeys) == SelectedTexts(a, idKeys) + SelectedTexts(b, idKeys)
  {
    if a != [] {
      assert (a + b)[1..] == a[1..] + b;
      SelectedAppend(a[1..], b, idKeys);
    } else {
      assert a + b == b;
    }
  }

  /** Columns outside `idKeys` are skipped; columns inside are all taken, in list order. */
  lemma {:induction false} SelectedExactly(tl: seq<TypedColumn>, idKeys: seq<string>)
    ensures (forall i :: 0 <= i < |tl| ==> tl[i].column !in idKeys) ==> SelectedTexts(tl, idKeys) == []
    ensures (forall i :: 0 <= i < |tl| ==> tl[i].column in idKeys) ==>
      SelectedTexts(tl, idKeys) == seq(|tl|, i requires 0 <= i < |tl| => PyStr(tl[i].value))
  {
    if tl != [] {
      SelectedExactly(tl[1..], idKeys);
    }
  }

  /**
   * Only which keys are listed matters, not their order or repetition: two
   * key lists holding the same keys select the same texts, in type-list
   * order, and so give the same id column.
   */
  lemma {:induction false} KeyOrderIgnored(tl: seq<TypedColumn>, k1: seq<string>, k2: seq<string>, idName: string, sep: string)
    requires forall c :: c in k1 <==> c in k2
    ensures SelectedTexts(tl, k1) == SelectedTexts(tl, k2)
    ensures CompositeIdTypeColumn(tl, idName, k1, sep) == CompositeIdTypeColumn(tl, idName, k2, sep)
  {
    if tl != [] {
      KeyOrderIgnored(tl[1..], k1, k2, idName, sep);
    }
  }

  /**
   * With a one-character separator that no selected field contains,
   * splitting the id column's text at the separator gives back the text of
   * each selected field, in type-list order.
   */
  lemma CompositeIdTypeColumnSplits(tl: seq<TypedColumn>, idName: string, idKeys: seq<string>, c: char)
    requires exists i :: 0 <= i < |tl| && tl[i].column in idKeys
    requires forall i :: 0 <= i < |tl| && tl[i].column in idKeys ==> c !in PyStr(tl[i].value)
    ensures Split(CompositeIdTypeColumn(tl, idName, idKeys, [c]).value.s, c) == SelectedTexts(tl, idKeys)
  {
    var i :| 0 <= i < |tl| && tl[i].column in idKeys;
    assert tl[..i] + tl[i..] == tl;
    SelectedAppend(tl[..i], tl[i..], idKeys);
    assert tl[i..][0] == tl[i];
    assert |SelectedTexts(tl[i..], idKeys)| > 0;
    var r := SelectedTexts(tl, idKeys);
    forall j | 0 <= j < |r|
      ensures c !in r[j]
    {
      SelectedFrom(tl, idKeys, r[j]);
    }
    JoinSplit(c, r);
  }
}
