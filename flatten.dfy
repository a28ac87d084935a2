/**
 * Record flattening (`flatten_dict` / `flatten_dict_list`): a JSON-like
 * value is walked recursively; every list of dicts becomes a dict keyed by
 * a chosen field of its elements, with that field removed from each
 * element. Failures are the Python exceptions the comprehensions raise.
 */
module Flatten {
  import opened Wrappers
  import opened Text
  import opened PyValues
  import opened PyDict

  /** A decoded record: a scalar, an insertion-ordered dict, or a list. */
  datatype Json = Leaf(v: Scalar) | Dict(entries: seq<(Scalar, Json)>) | List(items: seq<Json>)

  /** The `key` argument: one field name, or candidate names tried in order. */
  datatype KeySelector = Name(name: string) | Candidates(names: seq<string>)

  /** Python `k in j` for a dict (its keys) or a list (its elements). */
  predicate Contains(j: Json, k: Scalar)
  {
    match j
    case Leaf(_) => false
    case Dict(es) => k in Keys(es)
    case List(xs) => Leaf(k) in xs
  }

  /** The first of `names` that `j` contains, or `None`. */
  function FirstPresent(names: seq<string>, j: Json): (r: Scalar)
    ensures r.Null? <==> forall i :: 0 <= i < |names| ==> !Contains(j, Str(names[i]))
    ensures r.Str? ==> r.s in names && Contains(j, r)
    ensures r.Null? || r.Str?
  {
    if names == [] then Null
    else if Contains(j, Str(names[0])) then Str(names[0])
    else
      var r := FirstPresent(names[1..], j);
      assert forall i :: 1 <= i < |names| ==> names[i] == names[1..][i - 1];
      r
  }

  /** `choose_key(d)`: a single name is used as it is; candidates give the first present one. */
  function ChooseKey(sel: KeySelector, j: Json): Scalar
  {
    match sel
    case Name(n) => Str(n)
    case Candidates(ns) => FirstPresent(ns, j)
  }

  // ---- `str(value)` of a record ----

  /** Python `repr` of a record; text is single-quoted and not escaped. */
  function Repr(j: Json): string
    decreases j, 1
  {
    match j
    case Leaf(v) => PyRepr(v)
    case Dict(es) => "{" + ReprEntries(es, j) + "}"
    case List(xs) => "[" + ReprItems(xs, j) + "]"
  }

  function ReprEntries(es: seq<(Scalar, Json)>, ghost parent: Json): string
    requires parent.Dict? && es <= parent.entries
    decreases parent, 0, |es|
  {
    if es == [] then ""
    else
      var last := PyRepr(es[|es| - 1].0) + ": " + Repr(es[|es| - 1].1);
      if |es| == 1 then last else ReprEntries(es[..|es| - 1], parent) + ", " + last
  }

  function ReprItems(xs: seq<Json>, ghost parent: Json): string
    requires parent.List? && xs <= parent.items
    decreases parent, 0, |xs|
  {
    if xs == [] then ""
    else if |xs| == 1 then Repr(xs[0])
    else ReprItems(xs[..|xs| - 1], parent) + ", " + Repr(xs[|xs| - 1])
  }

  // ---- flattening ----

  /**
   * `flatten_dict_list(value, key)`: scalars, and lists whose first element
   * is a scalar, come back unchanged; dicts are flattened entry by entry; an
   * empty list raises IndexError; a list whose first element holds none of
   * the candidate keys becomes its own text; any other list is keyed.
   */
  function FlattenValue(j: Json, sel: KeySelector): (r: Result<Json, PyError>)
    ensures j.Leaf? ==> r == Ok(j)
    ensures j.List? && j.items != [] && j.items[0].Leaf? ==> r == Ok(j)
    ensures j.List? && j.items == [] ==> r == Err(IndexError)
    ensures j.Dict? && r.Ok? ==> r.value.Dict? && Keys(r.value.entries) == Keys(j.entries)
    decreases j, 1
  {
    match j
    case Leaf(_) => Ok(j)
    case Dict(es) =>
      (match FlattenEntries(es, sel, j)
       case Ok(flat) => Ok(Dict(flat))
       case Err(e) => Err(e))
    case List(xs) =>
      if xs == [] then Err(IndexError)
      else if xs[0].Leaf? then Ok(j)
      else
        var ck := ChooseKey(sel, xs[0]);
        if !Contains(xs[0], ck) && ck == Null then Ok(Leaf(Str(Repr(j))))
        else
          (match KeyedList(xs, sel, j)
           case Ok(d) => Ok(Dict(d))
           case Err(e) => Err(e))
  }

  /** `{k: flatten_dict_list(v, key) for k, v in d.items()}` over a prefix of a dict's entries. */
  function FlattenEntries(es: seq<(Scalar, Json)>, sel: KeySelector, ghost parent: Json)
    : (r: Result<seq<(Scalar, Json)>, PyError>)
    requires parent.Dict? && es <= parent.entries
    ensures r.Ok? ==> Keys(r.value) == Keys(es)
    decreases parent, 0, |es|
  {
    if es == [] then Ok([])
    else
      match FlattenEntries(es[..|es| - 1], sel, parent)
      case Err(e) => Err(e)
      case Ok(pre) =>
        match FlattenValue(es[|es| - 1].1, sel)
        case Err(e) => Err(e)
        case Ok(v) =>
          assert Keys(es) == Keys(es[..|es| - 1]) + [es[|es| - 1].0];
          Ok(pre + [(es[|es| - 1].0, v)])
  }

  /**
   * One element `d` of a keyed list: its key field's value `d[choose_key(d)]`
   * and the flattened element without that field. The source pops the key
   * chosen again on the flattened dict, which has the same keys as `d`, so
   * it is the same key.
   */
  function KeyedPair(sel: KeySelector, d: Json): (r: Result<(Scalar, Json), PyError>)
    ensures !d.Dict? ==> r == Err(TypeError)
    ensures d.Dict? && !(ChooseKey(sel, d) in Keys(d.entries)) ==> r == Err(KeyError)
    decreases d, 1
  {
    if !d.Dict? then Err(TypeError)
    else
      var ck := ChooseKey(sel, d);
      match Get(d.entries, ck)
      case None => Err(KeyError)
      case Some(kv) =>
        match FlattenEntries(d.entries, sel, d)
        case Err(e) => Err(e)
        case Ok(flat) =>
          if !kv.Leaf? then Err(TypeError) // an unhashable dict key
          else
            Ok((kv.v, Dict(Remove(flat, ck))))
  }

  /**
   * `{d[choose_key(d)]: flatten(d) for d in dlist}` followed by the pops,
   * over a prefix of a list's items: a later element with an equal key value
   * replaces the earlier one in place.
   */
  function KeyedList(xs: seq<Json>, sel: KeySelector, ghost parent: Json)
    : (r: Result<Dict<Scalar, Json>, PyError>)
    requires parent.List? && xs <= parent.items
    decreases parent, 0, |xs|
  {
    if xs == [] then Ok([])
    else
      match KeyedList(xs[..|xs| - 1], sel, parent)
      case Err(e) => Err(e)
      case Ok(acc) =>
        match KeyedPair(sel, xs[|xs| - 1])
        case Err(e) => Err(e)
        case Ok(p) => Ok(Set(acc, p.0, p.1))
  }

  /** `flatten_dict(d, key)` */
  function FlattenDict(es: seq<(Scalar, Json)>, sel: KeySelector): (r: Result<seq<(Scalar, Json)>, PyError>)
    ensures r.Ok? ==> Keys(r.value) == Keys(es)
  {
    FlattenEntries(es, sel, Dict(es))
  }

  // ---- properties ----

  /** Removing a key keeps exactly the other keys. */
  lemma RemoveKeysAll(d: Dict<Scalar, Json>, k: Scalar)
    ensures k !in Keys(Remove(d, k))
    ensures forall k' :: k' != k ==> (k' in Keys(Remove(d, k)) <==> k' in Keys(d))
  {
    forall k' | k' != k
      ensures k' in Keys(Remove(d, k)) <==> k' in Keys(d)
    {
      RemoveKeys(d, k, k');
    }
    RemoveKeys(d, k, k);
  }

  /**
   * A converted element: its key value is the scalar stored under the chosen
   * key, and its remainder holds every other key of the element but not the
   * chosen one.
   */
  lemma KeyedPairOk(sel: KeySelector, d: Json)
    requires KeyedPair(sel, d).Ok?
    ensures d.Dict? && KeyedPair(sel, d).value.1.Dict?
    ensures Get(d.entries, ChooseKey(sel, d)) == Some(Leaf(KeyedPair(sel, d).value.0))
    ensures ChooseKey(sel, d) !in Keys(KeyedPair(sel, d).value.1.entries)
    ensures forall k :: k != ChooseKey(sel, d) ==>
      (k in Keys(KeyedPair(sel, d).value.1.entries) <==> k in Keys(d.entries))
    ensures FlattenEntries(d.entries, sel, d).Ok?
    ensures KeyedPair(sel, d).value.1 == Dict(Remove(FlattenEntries(d.entries, sel, d).value, ChooseKey(sel, d)))
  {
    var flat := FlattenEntries(d.entries, sel, d).value;
    RemoveKeysAll(flat, ChooseKey(sel, d));
  }

  /** A dict's entries flatten exactly when each value does. */
  lemma {:induction false} FlattenEntriesOk(es: seq<(Scalar, Json)>, sel: KeySelector, parent: Json)
    requires parent.Dict? && es <= parent.entries
    ensures FlattenEntries(es, sel, parent).Ok? <==> forall i :: 0 <= i < |es| ==> FlattenValue(es[i].1, sel).Ok?
  {
    if es != [] {
      var pre := es[..|es| - 1];
      assert forall i :: 0 <= i < |pre| ==> pre[i] == es[i];
      FlattenEntriesOk(pre, sel, parent);
      if FlattenEntries(pre, sel, parent).Err? {
        var i :| 0 <= i < |pre| && FlattenValue(pre[i].1, sel).Err?;
        assert FlattenValue(es[i].1, sel).Err?;
      }
    }
  }

  /** Flattened entries keep each key and position and hold the flattened value. */
  lemma {:induction false} FlattenEntriesPointwise(es: seq<(Scalar, Json)>, sel: KeySelector, parent: Json)
    requires parent.Dict? && es <= parent.entries
    requires FlattenEntries(es, sel, parent).Ok?
    ensures var flat := FlattenEntries(es, sel, parent).value;
      |flat| == |es| &&
      forall i :: 0 <= i < |es| ==> FlattenValue(es[i].1, sel).Ok? && flat[i] == (es[i].0, FlattenValue(es[i].1, sel).value)
  {
    if es != [] {
      var pre := es[..|es| - 1];
      var last := es[|es| - 1];
      assert forall i :: 0 <= i < |pre| ==> pre[i] == es[i];
      var fp := FlattenEntries(pre, sel, parent);
      assert fp.Ok? && FlattenValue(last.1, sel).Ok?;
      FlattenEntriesPointwise(pre, sel, parent);
      assert FlattenEntries(es, sel, parent).value == fp.value + [(last.0, FlattenValue(last.1, sel).value)];
    }
  }

  /**
   * `flatten_dict(d)` succeeds exactly when every value of `d` flattens, and
   * then holds each key of `d`, in order, with its value flattened; a dict
   * nested in a record flattens the same way.
   */
  lemma FlattenDictValues(es: seq<(Scalar, Json)>, sel: KeySelector)
    ensures FlattenDict(es, sel).Ok? <==> forall i :: 0 <= i < |es| ==> FlattenValue(es[i].1, sel).Ok?
    ensures FlattenDict(es, sel).Ok? ==>
      |FlattenDict(es, sel).value| == |es| &&
      forall i :: 0 <= i < |es| ==> FlattenDict(es, sel).value[i] == (es[i].0, FlattenValue(es[i].1, sel).value)
    ensures FlattenValue(Dict(es), sel) ==
      if FlattenDict(es, sel).Ok? then Ok(Dict(FlattenDict(es, sel).value)) else Err(FlattenDict(es, sel).error)
  {
    FlattenEntriesOk(es, sel, Dict(es));
    if FlattenDict(es, sel).Ok? {
      FlattenEntriesPointwise(es, sel, Dict(es));
    }
  }

  /** Every item of a keyed list converts without raising. */
  predicate AllPairsOk(sel: KeySelector, xs: seq<Json>)
  {
    forall i :: 0 <= i < |xs| ==> KeyedPair(sel, xs[i]).Ok?
  }

  /** The (key value, flattened element) pairs of a keyed list, in list order. */
  function PairsOf(sel: KeySelector, xs: seq<Json>): (ps: seq<(Scalar, Json)>)
    requires AllPairsOk(sel, xs)
    ensures |ps| == |xs|
    ensures forall i :: 0 <= i < |xs| ==> ps[i] == KeyedPair(sel, xs[i]).value
  {
    if xs == [] then []
    else PairsOf(sel, xs[..|xs| - 1]) + [KeyedPair(sel, xs[|xs| - 1]).value]
  }

  /**
   * When every element converts, a keyed list is `dict(pairs)` of the
   * elements' (key value, remainder) pairs.
   */
  lemma {:induction false} KeyedListIsDictOfPairs(xs: seq<Json>, sel: KeySelector, parent: Json)
    requires parent.List? && xs <= parent.items
    requires AllPairsOk(sel, xs)
    ensures KeyedList(xs, sel, parent) == Ok(FromPairs(PairsOf(sel, xs)))
  {
    if xs != [] {
      var pre := xs[..|xs| - 1];
      assert forall i :: 0 <= i < |pre| ==> pre[i] == xs[i];
      KeyedListIsDictOfPairs(pre, sel, parent);
      var ps := PairsOf(sel, xs);
      assert ps[..|ps| - 1] == PairsOf(sel, pre);
    }
  }

  /** A keyed list that fails raises the error of its first element that fails. */
  lemma {:induction false} KeyedListFirstError(xs: seq<Json>, sel: KeySelector, parent: Json, i: nat)
    requires parent.List? && xs <= parent.items
    requires i < |xs| && KeyedPair(sel, xs[i]).Err?
    requires forall j :: 0 <= j < i ==> KeyedPair(sel, xs[j]).Ok?
    ensures KeyedList(xs, sel, parent) == Err(KeyedPair(sel, xs[i]).error)
  {
    var pre := xs[..|xs| - 1];
    var e := KeyedPair(sel, xs[i]).error;
    if i < |xs| - 1 {
      assert pre[i] == xs[i];
      assert forall j :: 0 <= j < i ==> pre[j] == xs[j];
      KeyedListFirstError(pre, sel, parent, i);
      assert KeyedList(pre, sel, parent) == Err(e);
    } else {
      assert forall j :: 0 <= j < |pre| ==> pre[j] == xs[j];
      assert AllPairsOk(sel, pre);
      KeyedListIsDictOfPairs(pre, sel, parent);
      assert KeyedList(pre, sel, parent).Ok?;
      assert KeyedPair(sel, xs[|xs| - 1]) == Err(e);
    }
  }

  /**
   * Later wins: the value stored under a key is the one of the last element
   * with that key value, and the keys are exactly the elements' key values.
   */
  lemma KeyedListLaterWins(xs: seq<Json>, sel: KeySelector, parent: Json, k: Scalar)
    requires parent.List? && xs <= parent.items
    requires AllPairsOk(sel, xs)
    ensures KeyedList(xs, sel, parent).Ok?
    ensures k in Keys(KeyedList(xs, sel, parent).value) <==>
      exists i :: 0 <= i < |xs| && KeyedPair(sel, xs[i]).value.0 == k
    ensures forall i :: (
        && 0 <= i < |xs| && KeyedPair(sel, xs[i]).value.0 == k
        && forall j :: i < j < |xs| ==> KeyedPair(sel, xs[j]).value.0 != k) ==>
      Get(KeyedList(xs, sel, parent).value, k) == Some(KeyedPair(sel, xs[i]).value.1)
  {
    var ps := PairsOf(sel, xs);
    KeyedListIsDictOfPairs(xs, sel, parent);
    KeyedListHasKey(sel, xs, ps, k);
    forall i | (&& 0 <= i < |xs| && KeyedPair(sel, xs[i]).value.0 == k
                && forall j :: i < j < |xs| ==> KeyedPair(sel, xs[j]).value.0 != k)
      ensures Get(FromPairs(ps), k) == Some(KeyedPair(sel, xs[i]).value.1)
    {
      LastPairWins(sel, xs, ps, k, i);
    }
  }

  /** `k` is a key of `dict(pairs)` exactly when some element has key value `k`. */
  lemma KeyedListHasKey(sel: KeySelector, xs: seq<Json>, ps: seq<(Scalar, Json)>, k: Scalar)
    requires AllPairsOk(sel, xs) && ps == PairsOf(sel, xs)
    ensures k in Keys(FromPairs(ps)) <==> exists i :: 0 <= i < |xs| && KeyedPair(sel, xs[i]).value.0 == k
  {
    FromPairsGet(ps, k);
    PairsOfKeys(sel, xs, ps, k);
  }

  /** The pair of the last element with key value `k` is the one `dict(pairs)` keeps. */
  lemma LastPairWins(sel: KeySelector, xs: seq<Json>, ps: seq<(Scalar, Json)>, k: Scalar, i: int)
    requires AllPairsOk(sel, xs) && |ps| == |xs|
    requires forall i :: 0 <= i < |xs| ==> ps[i] == KeyedPair(sel, xs[i]).value
    requires 0 <= i < |xs| && KeyedPair(sel, xs[i]).value.0 == k
    requires forall j :: i < j < |xs| ==> KeyedPair(sel, xs[j]).value.0 != k
    ensures Get(FromPairs(ps), k) == Some(KeyedPair(sel, xs[i]).value.1)
  {
    assert ps[i] == KeyedPair(sel, xs[i]).value;
    assert forall j :: i < j < |ps| ==> ps[j].0 != k by {
      forall j | i < j < |ps| ensures ps[j].0 != k { assert ps[j] == KeyedPair(sel, xs[j]).value; }
    }
    FromPairsGet(ps, k);
  }

  /** Some element has key value `k` exactly when some pair does. */
  lemma PairsOfKeys(sel: KeySelector, xs: seq<Json>, ps: seq<(Scalar, Json)>, k: Scalar)
    requires AllPairsOk(sel, xs) && |ps| == |xs|
    requires forall i :: 0 <= i < |xs| ==> ps[i] == KeyedPair(sel, xs[i]).value
    ensures (exists i :: 0 <= i < |ps| && ps[i].0 == k) <==>
      exists i :: 0 <= i < |xs| && KeyedPair(sel, xs[i]).value.0 == k
  {
    if exists i :: 0 <= i < |xs| && KeyedPair(sel, xs[i]).value.0 == k {
      var i :| 0 <= i < |xs| && KeyedPair(sel, xs[i]).value.0 == k;
      assert ps[i].0 == k;
    }
  }

  /** With a single field name, an element missing that field makes the whole list raise KeyError. */
  lemma MissingNameRaises(xs: seq<Json>, name: string, i: nat)
    requires 0 < |xs| && !xs[0].Leaf?
    requires i < |xs| && xs[i].Dict? && Str(name) !in Keys(xs[i].entries)
    requires forall j :: 0 <= j < i ==> KeyedPair(Name(name), xs[j]).Ok?
    ensures FlattenValue(List(xs), Name(name)) == Err(KeyError)
  {
    KeyedListFirstError(xs, Name(name), List(xs), i);
  }

  /**
   * Only the first element decides the text fallback: with candidate keys,
   * when the first element holds none of them (and no `None` key), the list
   * becomes its own text whatever the other elements hold.
   */
  lemma FallbackLooksAtFirstOnly(xs: seq<Json>, names: seq<string>)
    requires |xs| > 0 && !xs[0].Leaf?
    requires forall i :: 0 <= i < |names| ==> !Contains(xs[0], Str(names[i]))
    requires !Contains(xs[0], Null)
    ensures FlattenValue(List(xs), Candidates(names)) == Ok(Leaf(Str(Repr(List(xs)))))
  {
  }

  /** With the default `key=[]`, every list of dicts without a `None` key becomes text. */
  lemma DefaultKeyAlwaysText(xs: seq<Json>)
    requires |xs| > 0 && xs[0].Dict? && Null !in Keys(xs[0].entries)
    ensures FlattenValue(List(xs), Candidates([])) == Ok(Leaf(Str(Repr(List(xs)))))
  {
  }

  /** A dict whose values are all scalars flattens to itself (the first documented example). */
  lemma {:induction false} ScalarEntriesUnchanged(es: seq<(Scalar, Json)>, sel: KeySelector, parent: Json)
    requires parent.Dict? && es <= parent.entries
    requires forall i :: 0 <= i < |es| ==> es[i].1.Leaf?
    ensures FlattenEntries(es, sel, parent) == Ok(es)
  {
    if es != [] {
      var pre := es[..|es| - 1];
      ScalarEntriesUnchanged(pre, sel, parent);
      assert pre + [es[|es| - 1]] == es;
    }
  }

  /** `flatten_dict({'a': 1, 'b': 2})` is `{'a': 1, 'b': 2}`. */
  lemma FlattenDocScalars()
    ensures FlattenDict([(Str("a"), Leaf(Int(1))), (Str("b"), Leaf(Int(2)))], Candidates([]))
      == Ok([(Str("a"), Leaf(Int(1))), (Str("b"), Leaf(Int(2)))])
  {
    var es := [(Str("a"), Leaf(Int(1))), (Str("b"), Leaf(Int(2)))];
    ScalarEntriesUnchanged(es, Candidates([]), Dict(es));
  }

  /** A dict entry whose flattening is known extends the flattening of the entries before it. */
  lemma FlattenEntriesSnoc(es: seq<(Scalar, Json)>, sel: KeySelector, parent: Json, pre: seq<(Scalar, Json)>, v: Json)
    requires parent.Dict? && es <= parent.entries && es != []
    requires FlattenEntries(es[..|es| - 1], sel, parent) == Ok(pre)
    requires FlattenValue(es[|es| - 1].1, sel) == Ok(v)
    ensures FlattenEntries(es, sel, parent) == Ok(pre + [(es[|es| - 1].0, v)])
  {
  }

  /** `flatten_dict({'a': 1, 'b': [{'k': 2}]})` is `{'a': 1, 'b': "[{'k': 2}]"}`. */
  lemma FlattenDocText()
    ensures FlattenDict([(Str("a"), Leaf(Int(1))), (Str("b"), List([Dict([(Str("k"), Leaf(Int(2)))])]))], Candidates([]))
      == Ok([(Str("a"), Leaf(Int(1))), (Str("b"), Leaf(Str("[{'k': 2}]")))])
  {
    var inner := Dict([(Str("k"), Leaf(Int(2)))]);
    var b := List([inner]);
    var es := [(Str("a"), Leaf(Int(1))), (Str("b"), b)];
    assert IntToString(2) == "2";
    assert ReprEntries(inner.entries, inner) == "'k': 2";
    assert Repr(inner) == "{'k': 2}";
    assert ReprItems(b.items, b) == "{'k': 2}";
    assert Repr(b) == "[{'k': 2}]";
    assert FlattenValue(b, Candidates([])) == Ok(Leaf(Str("[{'k': 2}]")));
    var e1 := es[..1];
    ScalarEntriesUnchanged(e1, Candidates([]), Dict(es));
    assert es[..|es| - 1] == e1;
    FlattenEntriesSnoc(es, Candidates([]), Dict(es), e1, Leaf(Str("[{'k': 2}]")));
    assert FlattenEntries(es, Candidates([]), Dict(es)) == Ok(e1 + [(Str("b"), Leaf(Str("[{'k': 2}]")))]);
    assert e1 + [(Str("b"), Leaf(Str("[{'k': 2}]")))] == [(Str("a"), Leaf(Int(1))), (Str("b"), Leaf(Str("[{'k': 2}]")))];
    assert FlattenDict(es, Candidates([])) == Ok([(Str("a"), Leaf(Int(1))), (Str("b"), Leaf(Str("[{'k': 2}]")))]);
  }

  /** The two elements of the keyed documentation example, with their key values and remainders. */
  lemma KeyedDocPairs()
    ensures KeyedPair(Name("k"), Dict([(Str("k"), Leaf(Int(2))), (Str("val"), Leaf(Int(0)))]))
      == Ok((Int(2), Dict([(Str("val"), Leaf(Int(0)))])))
    ensures KeyedPair(Name("k"), Dict([(Str("k"), Leaf(Int(1))), (Str("val"), Leaf(Int(2)))]))
      == Ok((Int(1), Dict([(Str("val"), Leaf(Int(2)))])))
  {
    var d1 := Dict([(Str("k"), Leaf(Int(2))), (Str("val"), Leaf(Int(0)))]);
    var d2 := Dict([(Str("k"), Leaf(Int(1))), (Str("val"), Leaf(Int(2)))]);
    ScalarEntriesUnchanged(d1.entries, Name("k"), d1);
    ScalarEntriesUnchanged(d2.entries, Name("k"), d2);
    assert Remove(d1.entries, Str("k")) == [(Str("val"), Leaf(Int(0)))];
    assert Remove(d2.entries, Str("k")) == [(Str("val"), Leaf(Int(2)))];
  }

  /**
   * `flatten_dict({'a': 1, 'b': [{'k': 2, 'val': 0}, {'k': 1, 'val': 2}]}, key='k')`
   * is `{'a': 1, 'b': {2: {'val': 0}, 1: {'val': 2}}}`.
   */
  lemma FlattenDocKeyed()
    ensures FlattenDict(
        [(Str("a"), Leaf(Int(1))),
         (Str("b"), List([Dict([(Str("k"), Leaf(Int(2))), (Str("val"), Leaf(Int(0)))]),
                          Dict([(Str("k"), Leaf(Int(1))), (Str("val"), Leaf(Int(2)))])]))],
        Name("k"))
      == Ok([(Str("a"), Leaf(Int(1))),
             (Str("b"), Dict([(Int(2), Dict([(Str("val"), Leaf(Int(0)))])),
                              (Int(1), Dict([(Str("val"), Leaf(Int(2)))]))]))])
  {
    var sel := Name("k");
    var d1 := Dict([(Str("k"), Leaf(Int(2))), (Str("val"), Leaf(Int(0)))]);
    var d2 := Dict([(Str("k"), Leaf(Int(1))), (Str("val"), Leaf(Int(2)))]);
    var p1 := (Int(2), Dict([(Str("val"), Leaf(Int(0)))]));
    var p2 := (Int(1), Dict([(Str("val"), Leaf(Int(2)))]));
    KeyedDocPairs();
    var xs := [d1, d2];
    var x1 := xs[..1];
    assert x1 == [d1];
    assert x1[..0] == [];
    assert KeyedList([], sel, List(xs)) == Ok([]);
    assert Set([], p1.0, p1.1) == [p1];
    assert KeyedList(x1, sel, List(xs)) == Ok([p1]);
    assert xs[..|xs| - 1] == x1;
    assert Set([p1], p2.0, p2.1) == [p1, p2];
    assert KeyedList(xs, sel, List(xs)) == Ok([p1, p2]);
    assert FlattenValue(List(xs), sel) == Ok(Dict([p1, p2]));
    var es := [(Str("a"), Leaf(Int(1))), (Str("b"), List(xs))];
    var e1 := es[..1];
    ScalarEntriesUnchanged(e1, sel, Dict(es));
    assert es[..|es| - 1] == e1;
    FlattenEntriesSnoc(es, sel, Dict(es), e1, Dict([p1, p2]));
    assert e1 + [(Str("b"), Dict([p1, p2]))] == [(Str("a"), Leaf(Int(1))), (Str("b"), Dict([p1, p2]))];
    assert FlattenDict(es, sel) == Ok([(Str("a"), Leaf(Int(1))), (Str("b"), Dict([p1, p2]))]);
  }
}
