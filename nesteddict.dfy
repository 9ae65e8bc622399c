/** `dict2df(dict_in, header)` (utils.py): flattening a nested mapping into
    table rows. Every value that is not itself a mapping becomes one row,
    holding the keys on the way down to it in the leading header columns and
    the value in the column after them. A mapping is the sequence of its
    (key, value) entries in iteration order; a row is a map from column
    name to cell, where a column the row does not hold is the NaN padding
    pandas puts there. */
module NestedDict {
  import opened Wrappers

  /** A value of the nested mapping: a plain value, or a mapping again. */
  datatype Tree<V> = Leaf(value: V) | Dict(entries: seq<(V, Tree<V>)>)

  /** One table row: the cells it holds, by column name. */
  type Row<V> = map<string, V>

  /** A table: its column header and its rows in order. */
  datatype Frame<V> = Frame(columns: seq<string>, rows: seq<Row<V>>)

  /** What `dict2df` can raise. */
  datatype FlattenError =
    | HeaderTooShort                 // `IndexError` from `header[0]` or `header[1]`
    | DuplicateColumn(column: string) // `ValueError` from `insert`: the column exists already

  /** `header[1:]`, which is empty for an empty header too. */
  function Tail(header: seq<string>): (t: seq<string>)
    ensures |header| > 0 ==> t == header[1..]
    ensures |header| == 0 ==> t == []
  {
    if header == [] then [] else header[1..]
  }

  /** No column name occurs twice. */
  predicate Distinct(header: seq<string>) {
    forall i, j :: 0 <= i < j < |header| ==> header[i] != header[j]
  }

  /** A row holds the first column of `header`, and no column outside it. */
  predicate InHeader<V>(row: Row<V>, header: seq<string>) {
    |header| > 0 && header[0] in row && row.Keys <= set c | c in header
  }

  /** The rows of a sub-table with the column `col` set to `k` in each. */
  function WithColumn<V>(rows: seq<Row<V>>, col: string, k: V): (r: seq<Row<V>>)
    ensures |r| == |rows|
    ensures forall j :: 0 <= j < |rows| ==> r[j] == rows[j][col := k]
  {
    seq(|rows|, j requires 0 <= j < |rows| => rows[j][col := k])
  }

  /** The rows `dict2df` builds for the first `n` entries of a mapping, or
      the error it raises first: entry by entry in iteration order, a plain
      value gives the row `{header[0]: key, header[1]: value}`, a nested
      mapping gives the rows of its own flattening under `header[1:]`, each
      with `header[0]` set to the key. Every row it builds holds the key
      column `header[0]` and no column outside the header. */
  function FlattenFirst<V>(entries: seq<(V, Tree<V>)>, n: nat, header: seq<string>): (r: Result<seq<Row<V>>, FlattenError>)
    requires n <= |entries|
    ensures r.Ok? ==> forall j :: 0 <= j < |r.value| ==> InHeader(r.value[j], header)
    decreases Dict(entries), n
  {
    if n == 0 then Ok([])
    else
      match FlattenFirst(entries, n - 1, header)
      case Err(e) => Err(e)
      case Ok(rows) =>
        var entry := entries[n - 1];
        assert entry in entries;
        match entry.1
        case Leaf(v) =>
          if |header| < 2 then Err(HeaderTooShort)
          else Ok(rows + [map[header[0] := entry.0][header[1] := v]])
        case Dict(sub) =>
          match Flatten(sub, Tail(header))
          case Err(e) => Err(e)
          case Ok(subRows) =>
            if |header| == 0 then Err(HeaderTooShort)
            else if header[0] in header[1..] then Err(DuplicateColumn(header[0]))
            else Ok(rows + WithColumn(subRows, header[0], entry.0))
  }

  /** The rows `dict2df` builds for a whole mapping, or the error it
      raises; each row holds `header[0]` and only header columns. */
  function Flatten<V>(entries: seq<(V, Tree<V>)>, header: seq<string>): (r: Result<seq<Row<V>>, FlattenError>)
    ensures r.Ok? ==> forall j :: 0 <= j < |r.value| ==> InHeader(r.value[j], header)
    decreases Dict(entries), |entries| + 1
  {
    FlattenFirst(entries, |entries|, header)
  }

  /** `dict2df(dict_in, header)`: the frame starts empty with columns
      `header`, and each entry in turn appends its row (a plain value, set
      into the one line dictionary the loop reuses) or the rows of the
      recursive call with the key inserted as first column. */
  method Dict2Df<V>(dictIn: seq<(V, Tree<V>)>, header: seq<string>) returns (r: Result<Frame<V>, FlattenError>)
    ensures Flatten(dictIn, header).Ok? ==> r == Ok(Frame(header, Flatten(dictIn, header).value))
    ensures Flatten(dictIn, header).Err? ==> r == Err(Flatten(dictIn, header).error)
    decreases Dict(dictIn)
  {
    var dfOut: seq<Row<V>> := [];
    var lineDict: Row<V> := map[];
    var i := 0;
    while i < |dictIn|
      invariant 0 <= i <= |dictIn|
      invariant FlattenFirst(dictIn, i, header) == Ok(dfOut)
      invariant lineDict == map[] || (|header| >= 2 && lineDict.Keys == {header[0], header[1]})
    {
      var item := dictIn[i].0;
      assert dictIn[i] in dictIn;
      match dictIn[i].1 {
      case Dict(sub) =>
        var temp := Dict2Df(sub, Tail(header));
        if temp.Err? {
          FlattenPrefixErr(dictIn, i + 1, |dictIn|, header);
          return Err(temp.error);
        }
        if |header| == 0 {
          FlattenPrefixErr(dictIn, i + 1, |dictIn|, header);
          return Err(HeaderTooShort);
        }
        if header[0] in temp.value.columns {
          FlattenPrefixErr(dictIn, i + 1, |dictIn|, header);
          return Err(DuplicateColumn(header[0]));
        }
        var lineList := seq(|temp.value.rows|, _ => item);
        var inserted := seq(|temp.value.rows|, j requires 0 <= j < |temp.value.rows| => temp.value.rows[j][header[0] := lineList[j]]);
        assert inserted == WithColumn(temp.value.rows, header[0], item);
        dfOut := dfOut + inserted;
      case Leaf(v) =>
        if |header| < 2 {
          FlattenPrefixErr(dictIn, i + 1, |dictIn|, header);
          return Err(HeaderTooShort);
        }
        lineDict := lineDict[header[0] := item];
        lineDict := lineDict[header[1] := v];
        assert lineDict == map[header[0] := item][header[1] := v];
        dfOut := dfOut + [lineDict];
      }
      i := i + 1;
    }
    r := Ok(Frame(header, dfOut));
  }

  /** An error raised by the first `i` entries is the error of the first
      `n` for every larger `n`: later entries are never looked at. */
  lemma {:induction false} FlattenPrefixErr<V>(entries: seq<(V, Tree<V>)>, i: nat, n: nat, header: seq<string>)
    requires i <= n <= |entries|
    requires FlattenFirst(entries, i, header).Err?
    ensures FlattenFirst(entries, n, header) == FlattenFirst(entries, i, header)
    decreases n
  {
    if i < n {
      FlattenPrefixErr(entries, i, n - 1, header);
    }
  }

  /** The plain values of a mapping's first `n` entries, depth first in
      iteration order, each with the keys on the way down to it. */
  function LeavesFirst<V>(entries: seq<(V, Tree<V>)>, n: nat): (ls: seq<(seq<V>, V)>)
    requires n <= |entries|
    ensures forall j :: 0 <= j < |ls| ==> |ls[j].0| >= 1
    decreases Dict(entries), n
  {
    if n == 0 then []
    else
      var entry := entries[n - 1];
      assert entry in entries;
      LeavesFirst(entries, n - 1) +
        match entry.1
        case Leaf(v) => [([entry.0], v)]
        case Dict(sub) => UnderKey(entry.0, Leaves(sub))
  }

  /** All plain values of a mapping, depth first, with their key paths. */
  function Leaves<V>(entries: seq<(V, Tree<V>)>): (ls: seq<(seq<V>, V)>)
    ensures forall j :: 0 <= j < |ls| ==> |ls[j].0| >= 1
    decreases Dict(entries), |entries| + 1
  {
    LeavesFirst(entries, |entries|)
  }

  /** Key paths with one more key in front. */
  function UnderKey<V>(k: V, ls: seq<(seq<V>, V)>): (r: seq<(seq<V>, V)>)
    requires forall j :: 0 <= j < |ls| ==> |ls[j].0| >= 1
    ensures |r| == |ls|
    ensures forall j :: 0 <= j < |ls| ==> r[j] == ([k] + ls[j].0, ls[j].1)
  {
    seq(|ls|, j requires 0 <= j < |ls| => ([k] + ls[j].0, ls[j].1))
  }

  /** The row one plain value becomes: the keys of its `path` in the first
      header columns and the value in the column after them. A key written
      for a shallower level wins over a deeper one of the same name. */
  function RowOf<V>(header: seq<string>, path: seq<V>, v: V): (r: Row<V>)
    requires 1 <= |path| < |header|
    ensures r.Keys == set i | 0 <= i <= |path| :: header[i]
    ensures |path| >= 2 ==> r[header[0]] == path[0]
    ensures Distinct(header) ==>
      (forall i :: 0 <= i < |path| ==> r[header[i]] == path[i]) && r[header[|path|]] == v
    decreases |path|
  {
    if |path| == 1 then map[header[0] := path[0]][header[1] := v]
    else RowOf(header[1..], path[1..], v)[header[0] := path[0]]
  }

  /** `rows` are the rows of the plain values `ls`, one each, in order:
      each key path fits the header, and each row is the row of its path
      and value. */
  ghost predicate RowsMatch<V>(header: seq<string>, rows: seq<Row<V>>, ls: seq<(seq<V>, V)>) {
    && |rows| == |ls|
    && forall j :: 0 <= j < |ls| ==>
         1 <= |ls[j].0| < |header| && rows[j] == RowOf(header, ls[j].0, ls[j].1)
  }

  /** Matching rows and plain values can be put one after another. */
  lemma RowsMatchAppend<V>(header: seq<string>, rows1: seq<Row<V>>, ls1: seq<(seq<V>, V)>, rows2: seq<Row<V>>, ls2: seq<(seq<V>, V)>)
    requires RowsMatch(header, rows1, ls1) && RowsMatch(header, rows2, ls2)
    ensures RowsMatch(header, rows1 + rows2, ls1 + ls2)
  {
    forall j | 0 <= j < |ls1 + ls2|
      ensures 1 <= |(ls1 + ls2)[j].0| < |header|
      ensures (rows1 + rows2)[j] == RowOf(header, (ls1 + ls2)[j].0, (ls1 + ls2)[j].1)
    {
      if j >= |ls1| {
        assert (ls1 + ls2)[j] == ls2[j - |ls1|];
        assert (rows1 + rows2)[j] == rows2[j - |ls1|];
      }
    }
  }

  /** The flattening, when it succeeds, has exactly one row per plain value,
      in depth-first order, and the row of each plain value holds its key
      path and the value itself. */
  lemma {:induction false} FlattenFirstRows<V>(entries: seq<(V, Tree<V>)>, n: nat, header: seq<string>)
    requires n <= |entries|
    requires FlattenFirst(entries, n, header).Ok?
    ensures RowsMatch(header, FlattenFirst(entries, n, header).value, LeavesFirst(entries, n))
    decreases Dict(entries), n
  {
    if n > 0 {
      var entry := entries[n - 1];
      assert entry in entries;
      FlattenFirstRows(entries, n - 1, header);
      var rows := FlattenFirst(entries, n - 1, header).value;
      var ls := LeavesFirst(entries, n - 1);
      match entry.1
      case Leaf(v) =>
        var row := map[header[0] := entry.0][header[1] := v];
        assert RowsMatch(header, [row], [([entry.0], v)]);
        RowsMatchAppend(header, rows, ls, [row], [([entry.0], v)]);
      case Dict(sub) =>
        FlattenFirstRows(sub, |sub|, Tail(header));
        assert |header| > 0 && Tail(header) == header[1..];
        var subRows := Flatten(sub, Tail(header)).value;
        NestedRowsAreRowsOf(header, entry.0, Leaves(sub), subRows);
        RowsMatchAppend(header, rows, ls, WithColumn(subRows, header[0], entry.0), UnderKey(entry.0, Leaves(sub)));
    }
  }

  /** The rows of a nested mapping, each the row of its key path under
      `header[1:]`, become with the key inserted in `header[0]` the rows of
      the longer key paths under `header`. */
  lemma NestedRowsAreRowsOf<V>(header: seq<string>, key: V, subLeaves: seq<(seq<V>, V)>, subRows: seq<Row<V>>)
    requires |header| > 0
    requires RowsMatch(header[1..], subRows, subLeaves)
    ensures RowsMatch(header, WithColumn(subRows, header[0], key), UnderKey(key, subLeaves))
  {
    var rows := WithColumn(subRows, header[0], key);
    var ls := UnderKey(key, subLeaves);
    forall j | 0 <= j < |subLeaves|
      ensures 1 <= |ls[j].0| < |header| && rows[j] == RowOf(header, ls[j].0, ls[j].1)
    {
      var path := [key] + subLeaves[j].0;
      assert path[1..] == subLeaves[j].0;
    }
  }

  /** The whole-mapping form of `FlattenFirstRows`: one row per plain value,
      so the row count is the number of plain values in the mapping. */
  lemma FlattenRows<V>(entries: seq<(V, Tree<V>)>, header: seq<string>)
    requires Flatten(entries, header).Ok?
    ensures var rows := Flatten(entries, header).value;
      var ls := Leaves(entries);
      && |rows| == |ls|
      && forall j :: 0 <= j < |ls| ==> |ls[j].0| < |header| && rows[j] == RowOf(header, ls[j].0, ls[j].1)
  {
    FlattenFirstRows(entries, |entries|, header);
  }

  /** How many header columns a mapping needs: two for a plain value (key
      and value), one more than its contents for a nested mapping. */
  function HeightFirst<V>(entries: seq<(V, Tree<V>)>, n: nat): nat
    requires n <= |entries|
    decreases Dict(entries), n
  {
    if n == 0 then 0
    else
      var entry := entries[n - 1];
      assert entry in entries;
      var h := match entry.1
        case Leaf(_) => 2
        case Dict(sub) => 1 + Height(sub);
      var prev := HeightFirst(entries, n - 1);
      if prev < h then h else prev
  }

  function Height<V>(entries: seq<(V, Tree<V>)>): nat
    decreases Dict(entries), |entries| + 1
  {
    HeightFirst(entries, |entries|)
  }

  /** A flattening that succeeds had header columns enough for every level;
      with distinct column names, having enough columns is also all it
      takes to succeed. */
  lemma {:induction false} FlattenFirstSucceeds<V>(entries: seq<(V, Tree<V>)>, n: nat, header: seq<string>)
    requires n <= |entries|
    ensures FlattenFirst(entries, n, header).Ok? ==> |header| >= HeightFirst(entries, n)
    ensures Distinct(header) && |header| >= HeightFirst(entries, n) ==> FlattenFirst(entries, n, header).Ok?
    decreases Dict(entries), n
  {
    if n > 0 {
      var entry := entries[n - 1];
      assert entry in entries;
      FlattenFirstSucceeds(entries, n - 1, header);
      match entry.1
      case Leaf(v) =>
      case Dict(sub) =>
        FlattenFirstSucceeds(sub, |sub|, Tail(header));
        assert Height(sub) == HeightFirst(sub, |sub|);
        assert Flatten(sub, Tail(header)) == FlattenFirst(sub, |sub|, Tail(header));
        if Distinct(header) && |header| > 0 {
          assert Distinct(Tail(header)) by {
            forall i, j | 0 <= i < j < |Tail(header)| ensures Tail(header)[i] != Tail(header)[j] {
              assert Tail(header)[i] == header[i + 1] && Tail(header)[j] == header[j + 1];
            }
          }
          assert header[0] !in header[1..] by {
            forall j | 0 <= j < |header[1..]| ensures header[1..][j] != header[0] {
              assert header[1..][j] == header[j + 1];
            }
          }
        }
    }
  }

  /** `FlattenFirstSucceeds` for a whole mapping. */
  lemma FlattenSucceeds<V>(entries: seq<(V, Tree<V>)>, header: seq<string>)
    ensures Flatten(entries, header).Ok? ==> |header| >= Height(entries)
    ensures Distinct(header) ==> (Flatten(entries, header).Ok? <==> |header| >= Height(entries))
  {
    FlattenFirstSucceeds(entries, |entries|, header);
  }

  /** Flattening fewer entries gives a prefix of the rows: the rows of
      earlier keys come first. */
  lemma {:induction false} FlattenFirstPrefix<V>(entries: seq<(V, Tree<V>)>, m: nat, n: nat, header: seq<string>)
    requires m <= n <= |entries|
    requires FlattenFirst(entries, n, header).Ok?
    ensures FlattenFirst(entries, m, header).Ok?
    ensures FlattenFirst(entries, m, header).value <= FlattenFirst(entries, n, header).value
    decreases n
  {
    if m < n {
      FlattenFirstPrefix(entries, m, n - 1, header);
    }
  }

  /** The rows of entry `i` form one contiguous block after the rows of the
      entries before it. A plain value gives one row holding its key and
      value; every row of a nested mapping holds its key in column
      `header[0]`. */
  lemma FlattenBlock<V>(entries: seq<(V, Tree<V>)>, i: nat, header: seq<string>)
    requires i < |entries|
    requires Flatten(entries, header).Ok?
    ensures FlattenFirst(entries, i, header).Ok? && FlattenFirst(entries, i + 1, header).Ok?
    ensures var before := FlattenFirst(entries, i, header).value;
      var upto := FlattenFirst(entries, i + 1, header).value;
      var all := Flatten(entries, header).value;
      && before <= upto <= all
      && (entries[i].1.Leaf? ==>
            |header| >= 2 && |upto| == |before| + 1 &&
            all[|before|] == map[header[0] := entries[i].0][header[1] := entries[i].1.value])
      && (entries[i].1.Dict? ==>
            |header| >= 1 && forall j :: |before| <= j < |upto| ==> all[j][header[0]] == entries[i].0)
  {
    FlattenFirstPrefix(entries, i + 1, |entries|, header);
    FlattenFirstPrefix(entries, i, i + 1, header);
  }

  /** The cells of the example in the documentation of `dict2df`. */
  datatype Cell = Str(s: string) | Num(n: int)

  /** A mapping of three plain values flattens to three rows, in order. */
  lemma ThreeLeaves<V>(k1: V, v1: V, k2: V, v2: V, k3: V, v3: V, h1: string, h2: string)
    ensures Flatten([(k1, Leaf(v1)), (k2, Leaf(v2)), (k3, Leaf(v3))], [h1, h2]) ==
      Ok([map[h1 := k1][h2 := v1], map[h1 := k2][h2 := v2], map[h1 := k3][h2 := v3]])
  {
    var e := [(k1, Leaf(v1)), (k2, Leaf(v2)), (k3, Leaf(v3))];
    var hd := [h1, h2];
    var r1, r2, r3 := map[h1 := k1][h2 := v1], map[h1 := k2][h2 := v2], map[h1 := k3][h2 := v3];
    assert FlattenFirst(e, 0, hd) == Ok([]);
    var x1 := FlattenFirst(e, 1, hd).value;
    assert |x1| == 1 && x1[0] == r1;
    assert FlattenFirst(e, 1, hd).Ok? && x1 == [r1];
    var x2 := FlattenFirst(e, 2, hd).value;
    assert |x2| == 2 && x2[1] == r2;
    assert FlattenFirst(e, 2, hd).Ok? && x2 == [r1, r2];
    var x3 := FlattenFirst(e, 3, hd).value;
    assert |x3| == 3 && x3[2] == r3;
    assert FlattenFirst(e, 3, hd).Ok? && x3 == [r1, r2, r3];
  }

  /** The mapping of the example in the documentation of `dict2df`: three
      letters, each over three numbered strings. */
  function DocDict(): seq<(Cell, Tree<Cell>)> {
    [(Str("a"), DocInner("abc", "def", "ghi")),
     (Str("b"), DocInner("cba", "fed", "ihg")),
     (Str("c"), DocInner("bca", "efd", "hig"))]
  }

  function DocInner(a: string, b: string, c: string): Tree<Cell> {
    Dict([(Num(1), Leaf(Str(a))), (Num(2), Leaf(Str(b))), (Num(3), Leaf(Str(c)))])
  }

  /** The three rows the documentation shows for one letter. */
  function DocBlock(k: string, a: string, b: string, c: string): seq<Row<Cell>> {
    [map["alph" := Str(k), "num" := Num(1), "value" := Str(a)],
     map["alph" := Str(k), "num" := Num(2), "value" := Str(b)],
     map["alph" := Str(k), "num" := Num(3), "value" := Str(c)]]
  }

  /** The example of the documentation: with header alph, num, value the
      three letters over three numbered strings give the nine rows shown,
      letter by letter and number by number. */
  lemma DocExample()
    ensures Flatten(DocDict(), ["alph", "num", "value"]) == Ok(
      DocBlock("a", "abc", "def", "ghi") + DocBlock("b", "cba", "fed", "ihg") + DocBlock("c", "bca", "efd", "hig"))
  {
    var header := ["alph", "num", "value"];
    var dictIn := DocDict();
    assert Tail(header) == ["num", "value"];
    assert "alph" !in header[1..];
    ThreeLeaves(Num(1), Str("abc"), Num(2), Str("def"), Num(3), Str("ghi"), "num", "value");
    ThreeLeaves(Num(1), Str("cba"), Num(2), Str("fed"), Num(3), Str("ihg"), "num", "value");
    ThreeLeaves(Num(1), Str("bca"), Num(2), Str("efd"), Num(3), Str("hig"), "num", "value");
    BlockRows("a", "abc", "def", "ghi");
    BlockRows("b", "cba", "fed", "ihg");
    BlockRows("c", "bca", "efd", "hig");
    assert FlattenFirst(dictIn, 0, header) == Ok([]);
    var x1 := FlattenFirst(dictIn, 1, header);
    assert x1.Ok? && x1.value == DocBlock("a", "abc", "def", "ghi");
    var x2 := FlattenFirst(dictIn, 2, header);
    assert x2.Ok? && x2.value == x1.value + DocBlock("b", "cba", "fed", "ihg");
    var x3 := FlattenFirst(dictIn, 3, header);
    assert x3.Ok? && x3.value == x2.value + DocBlock("c", "bca", "efd", "hig");
  }

  /** One block of the documentation example: the three rows of a key over
      three numbered values. */
  lemma BlockRows(k: string, a: string, b: string, c: string)
    ensures WithColumn([map["num" := Num(1)]["value" := Str(a)],
                        map["num" := Num(2)]["value" := Str(b)],
                        map["num" := Num(3)]["value" := Str(c)]], "alph", Str(k)) ==
      DocBlock(k, a, b, c)
  {
    RowShape(Str(k), Num(1), Str(a));
    RowShape(Str(k), Num(2), Str(b));
    RowShape(Str(k), Num(3), Str(c));
  }

  /** A row built as the nested call builds it equals the row display. */
  lemma RowShape(k: Cell, n: Cell, v: Cell)
    ensures map["num" := n]["value" := v]["alph" := k] == map["alph" := k, "num" := n, "value" := v]
  {
    var lhs := map["num" := n]["value" := v]["alph" := k];
    var rhs := map["alph" := k, "num" := n, "value" := v];
    assert lhs.Keys == rhs.Keys;
    assert forall c :: c in lhs ==> lhs[c] == rhs[c];
  }
}
