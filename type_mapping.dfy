/**
 * SQL type resolution for a column: an exact name table, then a prefix
 * table, then a suffix table, then a table keyed by the pandas dtype of the
 * column's values. The prefix and suffix tables are Python dicts that are
 * scanned in insertion order, so they are sequences here and the first
 * entry that matches wins.
 */
module TypeMapping {
  import opened Wrappers

  /** Python `name[:n]` */
  function HeadSlice(name: string, n: nat): string
  {
    if n <= |name| then name[..n] else name
  }

  /** Python `name[-n:]`; note that `-0` is `0`, so `name[-0:]` is all of `name`. */
  function TailSlice(name: string, n: nat): string
  {
    if n == 0 || n >= |name| then name else name[|name| - n..]
  }

  /** The test `name[:len(p)] == p` */
  predicate PrefixTest(name: string, p: string)
  {
    HeadSlice(name, |p|) == p
  }

  /** The test `name[-len(s):] == s` */
  predicate SuffixTest(name: string, s: string)
  {
    TailSlice(name, |s|) == s
  }

  /** The prefix test is exactly "p is a prefix of name"; the empty prefix matches every name. */
  lemma PrefixTestMeaning(name: string, p: string)
    ensures PrefixTest(name, p) <==> p <= name
  {
  }

  /**
   * The suffix test is "s is a suffix of name" for a non-empty `s`, but the
   * empty suffix matches only the empty name.
   */
  lemma SuffixTestMeaning(name: string, s: string)
    ensures s != [] ==> (SuffixTest(name, s) <==> |s| <= |name| && name[|name| - |s|..] == s)
    ensures s == [] ==> (SuffixTest(name, s) <==> name == [])
  {
    if s != [] && |s| > |name| {
      assert |TailSlice(name, |s|)| == |name|;
    }
  }

  /** One table entry's key matches `name`, by prefix or by suffix. */
  predicate Hit(name: string, key: string, isPrefix: bool)
  {
    if isPrefix then PrefixTest(name, key) else SuffixTest(name, key)
  }

  /** Entry `i` matches and no earlier entry does. */
  predicate IsFirstHit(table: seq<(string, string)>, name: string, isPrefix: bool, i: int)
  {
    0 <= i < |table| && Hit(name, table[i].0, isPrefix) &&
    forall j :: 0 <= j < i ==> !Hit(name, table[j].0, isPrefix)
  }

  predicate NoHit(table: seq<(string, string)>, name: string, isPrefix: bool)
  {
    forall i :: 0 <= i < |table| ==> !Hit(name, table[i].0, isPrefix)
  }

  /** The `for p in table: if ...: return table[p]` scan. */
  function FirstHit(table: seq<(string, string)>, name: string, isPrefix: bool): (r: Option<string>)
    ensures r.None? <==> NoHit(table, name, isPrefix)
    ensures forall i :: IsFirstHit(table, name, isPrefix, i) ==> r == Some(table[i].1)
  {
    if table == [] then None
    else if Hit(name, table[0].0, isPrefix) then Some(table[0].1)
    else
      var r := FirstHit(table[1..], name, isPrefix);
      assert forall i :: IsFirstHit(table, name, isPrefix, i) ==> IsFirstHit(table[1..], name, isPrefix, i - 1);
      r
  }

  datatype TypeMapper = TypeMapper(
    direct: map<string, string>,
    prefix: seq<(string, string)>,
    suffix: seq<(string, string)>,
    typed: map<string, string>)
  {
    /**
     * `map(column_name, column_type)`: the priority chain
     * direct, then first matching prefix, then first matching suffix, then
     * the dtype table; `None` when no tier matches.
     */
    function Map(name: string, tag: Option<string>): (r: Option<string>)
      ensures name in direct ==> r == Some(direct[name])
      ensures name !in direct ==>
        forall i :: IsFirstHit(prefix, name, true, i) ==> r == Some(prefix[i].1)
      ensures name !in direct && NoHit(prefix, name, true) ==>
        forall i :: IsFirstHit(suffix, name, false, i) ==> r == Some(suffix[i].1)
      ensures name !in direct && NoHit(prefix, name, true) && NoHit(suffix, name, false) ==>
        r == (if tag.Some? && tag.value in typed then Some(typed[tag.value]) else None)
    {
      if name in direct then Some(direct[name])
      else
        var p := FirstHit(prefix, name, true);
        if p.Some? then p
        else
          var s := FirstHit(suffix, name, false);
          if s.Some? then s
          else if tag.Some? && tag.value in typed then Some(typed[tag.value])
          else None
    }
  }

  /** The mapper of the class docstring and the answers it documents. */
  lemma MapDocExamples()
    ensures var tm := TypeMapper(
        map["sample_column" := "int", "another_column" := "varchar(10)"],
        [("pre_", "varchar(10)")],
        [("_su", "int")],
        map["int64" := "int", "float64" := "decimal", "bool" := "bit", "object" := "varchar(max)"]);
      && tm.Map("sample_column", None) == Some("int")
      && tm.Map("another_column", None) == Some("varchar(10)")
      && tm.Map("pre_column", None) == Some("varchar(10)")
      && tm.Map("column_su", None) == Some("int")
      && tm.Map("any_name", Some("bool")) == Some("bit")
      && tm.Map("any_name", None) == None
  {
    var tm := TypeMapper(
        map["sample_column" := "int", "another_column" := "varchar(10)"],
        [("pre_", "varchar(10)")],
        [("_su", "int")],
        map["int64" := "int", "float64" := "decimal", "bool" := "bit", "object" := "varchar(max)"]);
    assert HeadSlice("column_su", 4)[0] == 'c';
    assert !PrefixTest("column_su", "pre_");
    assert SuffixTest("column_su", "_su");
    assert HeadSlice("any_name", 4)[0] == 'a';
    assert !PrefixTest("any_name", "pre_");
    assert !SuffixTest("any_name", "_su");
  }
}
