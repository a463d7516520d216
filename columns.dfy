/**
  Positional column access: `get_column`, the sampling rule of
  `get_numeric_columns`, and the part of `get_stats` that does not depend on
  floating point.

  A row may be shorter than the header record; a field that a row does not
  have is skipped, never an error. `float(value)` is not modelled: its
  verdict is the parameter `isNumeric`.
 */
module Columns {
  import opened Prelude

  /** How many rows the numeric classification looks at. */
  const SampleRows: nat := 10

  /** `headers.index(name)`: the first position holding `name`, or the ValueError case. */
  function FirstIndex(headers: seq<string>, name: string): (r: Option<nat>)
    ensures r.None? <==> name !in headers
    ensures r.Some? ==> r.value < |headers| && headers[r.value] == name
    ensures r.Some? ==> forall j :: 0 <= j < r.value ==> headers[j] != name
  {
    if headers == [] then None
    else if headers[0] == name then Some(0)
    else match FirstIndex(headers[1..], name)
      case None => None
      case Some(i) => Some(i + 1)
  }

  /** `[row[i] for row in rows if i < len(row)]`. */
  function ColumnAt(rows: seq<seq<string>>, i: nat): (r: seq<string>)
    ensures |r| <= |rows|
  {
    if rows == [] then []
    else (if i < |rows[0]| then [rows[0][i]] else []) + ColumnAt(rows[1..], i)
  }

  /** `get_column(name)`. */
  function Column(headers: seq<string>, rows: seq<seq<string>>, name: string): seq<string>
  {
    match FirstIndex(headers, name)
    case None => []
    case Some(i) => ColumnAt(rows, i)
  }

  /** `[row[i] for row in rows if i < len(row) and row[i]]`: the non-empty fields at `i`. */
  function NonEmptyAt(rows: seq<seq<string>>, i: nat): (r: seq<string>)
    ensures |r| <= |rows|
    ensures forall k :: 0 <= k < |r| ==> r[k] != ""
  {
    if rows == [] then []
    else (if i < |rows[0]| && rows[0][i] != "" then [rows[0][i]] else []) + NonEmptyAt(rows[1..], i)
  }

  /** The values `get_numeric_columns` inspects for column `i`: only the first ten rows. */
  function Sample(rows: seq<seq<string>>, i: nat): seq<string>
  {
    NonEmptyAt(Prefix(rows, SampleRows), i)
  }

  /** `sample and all(self.is_numeric(val) for val in sample)`. */
  predicate IsNumericColumn(rows: seq<seq<string>>, i: nat, isNumeric: string -> bool)
  {
    var sample := Sample(rows, i);
    sample != [] && forall k :: 0 <= k < |sample| ==> isNumeric(sample[k])
  }

  /** The positions below `n` that satisfy `p`, in increasing order. */
  function Positions(n: nat, p: nat -> bool): (r: seq<nat>)
    ensures forall k :: 0 <= k < |r| ==> r[k] < n
  {
    if n == 0 then [] else Positions(n - 1, p) + (if p(n - 1) then [n - 1] else [])
  }

  /** The numeric classification of each position. */
  function NumericAt(rows: seq<seq<string>>, isNumeric: string -> bool): nat -> bool
  {
    (j: nat) => IsNumericColumn(rows, j, isNumeric)
  }

  /** The positions below `n` that classify as numeric, in increasing order. */
  function NumericIndices(rows: seq<seq<string>>, isNumeric: string -> bool, n: nat): seq<nat>
  {
    Positions(n, NumericAt(rows, isNumeric))
  }

  /** `[headers[j] for j in idx]`. */
  function Project(headers: seq<string>, idx: seq<nat>): (r: seq<string>)
    requires forall k :: 0 <= k < |idx| ==> idx[k] < |headers|
    ensures |r| == |idx|
    ensures forall k :: 0 <= k < |idx| ==> r[k] == headers[idx[k]]
  {
    if idx == [] then [] else Project(headers, idx[..|idx| - 1]) + [headers[idx[|idx| - 1]]]
  }

  /** What `get_numeric_columns()` returns. */
  function NumericColumns(headers: seq<string>, rows: seq<seq<string>>, isNumeric: string -> bool): seq<string>
  {
    Project(headers, NumericIndices(rows, isNumeric, |headers|))
  }

  /** `[v for v in values if self.is_numeric(v)]`. */
  function Numeric(values: seq<string>, isNumeric: string -> bool): (r: seq<string>)
    ensures |r| <= |values|
    ensures forall k :: 0 <= k < |r| ==> isNumeric(r[k])
    ensures r == [] <==> forall k :: 0 <= k < |values| ==> !isNumeric(values[k])
  {
    if values == [] then []
    else (if isNumeric(values[0]) then [values[0]] else []) + Numeric(values[1..], isNumeric)
  }

  /**
    The count `get_stats(name)` reports, or None when no value of the column
    is numeric (an absent column included). Mean, median, extremes and
    standard deviation are floating point and not modelled.
   */
  function StatsCount(headers: seq<string>, rows: seq<seq<string>>, name: string, isNumeric: string -> bool): (r: Option<nat>)
    ensures r.None? <==> forall k :: 0 <= k < |Column(headers, rows, name)| ==> !isNumeric(Column(headers, rows, name)[k])
    ensures r.Some? ==> 1 <= r.value <= |rows|
    ensures r.Some? ==> r.value == |Numeric(Column(headers, rows, name), isNumeric)|
  {
    var values := Numeric(Column(headers, rows, name), isNumeric);
    if values == [] then None else Some(|values|)
  }

  // ---------------------------------------------------------------------
  // get_stats

  /** Filtering a concatenation filters each part and keeps their order. */
  lemma {:induction false} NumericAppend(values1: seq<string>, values2: seq<string>, isNumeric: string -> bool)
    ensures Numeric(values1 + values2, isNumeric) == Numeric(values1, isNumeric) + Numeric(values2, isNumeric)
  {
    if values1 == [] {
      assert values1 + values2 == values2;
    } else {
      assert (values1 + values2)[0] == values1[0];
      assert (values1 + values2)[1..] == values1[1..] + values2;
      NumericAppend(values1[1..], values2, isNumeric);
    }
  }

  /** One value is kept exactly when it is numeric. */
  lemma NumericSingle(v: string, isNumeric: string -> bool)
    ensures Numeric([v], isNumeric) == if isNumeric(v) then [v] else []
  {
    assert [v][1..] == [];
  }

  /** With every value numeric, all of them are kept, in order. */
  lemma {:induction false} NumericAll(values: seq<string>, isNumeric: string -> bool)
    requires forall k :: 0 <= k < |values| ==> isNumeric(values[k])
    ensures Numeric(values, isNumeric) == values
  {
    if values != [] {
      NumericAll(values[1..], isNumeric);
    }
  }

  // ---------------------------------------------------------------------
  // get_column

  /** An absent name gives the empty column; a present one reads its first position. */
  lemma ColumnLookup(headers: seq<string>, rows: seq<seq<string>>, name: string)
    ensures name !in headers ==> Column(headers, rows, name) == []
    ensures name in headers ==> exists i :: (0 <= i < |headers| && headers[i] == name &&
      (forall j :: 0 <= j < i ==> headers[j] != name) && Column(headers, rows, name) == ColumnAt(rows, i))
  {
    var r := FirstIndex(headers, name);
    if r.Some? {
      assert headers[r.value] == name;
    }
  }

  /** The column of a concatenation of rows is the concatenation of the columns: one field per row, in row order. */
  lemma {:induction false} ColumnAtAppend(rows1: seq<seq<string>>, rows2: seq<seq<string>>, i: nat)
    ensures ColumnAt(rows1 + rows2, i) == ColumnAt(rows1, i) + ColumnAt(rows2, i)
  {
    if rows1 == [] {
      assert rows1 + rows2 == rows2;
    } else {
      assert (rows1 + rows2)[0] == rows1[0];
      assert (rows1 + rows2)[1..] == rows1[1..] + rows2;
      ColumnAtAppend(rows1[1..], rows2, i);
    }
  }

  /** A row contributes its field at `i` exactly when it is long enough. */
  lemma ColumnAtSingle(row: seq<string>, i: nat)
    ensures ColumnAt([row], i) == if i < |row| then [row[i]] else []
  {
    assert [row][1..] == [];
  }

  /** When every row reaches column `i`, the column has one value per row, in order. */
  lemma {:induction false} ColumnAtFull(rows: seq<seq<string>>, i: nat)
    requires forall k :: 0 <= k < |rows| ==> i < |rows[k]|
    ensures |ColumnAt(rows, i)| == |rows|
    ensures forall k :: 0 <= k < |rows| ==> ColumnAt(rows, i)[k] == rows[k][i]
  {
    if rows != [] {
      ColumnAtFull(rows[1..], i);
    }
  }

  // ---------------------------------------------------------------------
  // get_numeric_columns

  /** The sample of a concatenation of rows is the concatenation of the samples, in row order. */
  lemma {:induction false} NonEmptyAtAppend(rows1: seq<seq<string>>, rows2: seq<seq<string>>, i: nat)
    ensures NonEmptyAt(rows1 + rows2, i) == NonEmptyAt(rows1, i) + NonEmptyAt(rows2, i)
  {
    if rows1 == [] {
      assert rows1 + rows2 == rows2;
    } else {
      assert (rows1 + rows2)[0] == rows1[0];
      assert (rows1 + rows2)[1..] == rows1[1..] + rows2;
      NonEmptyAtAppend(rows1[1..], rows2, i);
    }
  }

  /** A row contributes its field at `i` exactly when it has one and it is non-empty. */
  lemma NonEmptyAtSingle(row: seq<string>, i: nat)
    ensures NonEmptyAt([row], i) == if i < |row| && row[i] != "" then [row[i]] else []
  {
    assert [row][1..] == [];
  }


  /** The classified positions are exactly the numeric ones, each once, in increasing order. */
  lemma NumericIndicesMeaning(rows: seq<seq<string>>, isNumeric: string -> bool, n: nat)
    ensures forall k :: 0 <= k < |NumericIndices(rows, isNumeric, n)| ==> NumericIndices(rows, isNumeric, n)[k] < n
    ensures forall a, b :: 0 <= a < b < |NumericIndices(rows, isNumeric, n)| ==>
      NumericIndices(rows, isNumeric, n)[a] < NumericIndices(rows, isNumeric, n)[b]
    ensures forall j: nat :: j in NumericIndices(rows, isNumeric, n) <==> j < n && IsNumericColumn(rows, j, isNumeric)
  {
    var p := NumericAt(rows, isNumeric);
    PositionsIncreasing(n, p);
    forall j: nat ensures j in Positions(n, p) <==> j < n && p(j) {
      PositionIn(n, p, j);
    }
  }

  lemma {:induction false} PositionsIncreasing(n: nat, p: nat -> bool)
    ensures forall a, b :: 0 <= a < b < |Positions(n, p)| ==> Positions(n, p)[a] < Positions(n, p)[b]
  {
    if n > 0 {
      PositionsIncreasing(n - 1, p);
    }
  }

  lemma {:induction false} PositionIn(n: nat, p: nat -> bool, j: nat)
    ensures j in Positions(n, p) <==> j < n && p(j)
  {
    if n > 0 {
      var prev := Positions(n - 1, p);
      var tail: seq<nat> := if p(n - 1) then [n - 1] else [];
      assert Positions(n, p) == prev + tail;
      assert j in prev + tail <==> j in prev || j in tail;
      if j < n - 1 {
        PositionIn(n - 1, p, j);
      } else {
        PositionsBelow(n - 1, p, j);
      }
    }
  }

  lemma PositionsBelow(n: nat, p: nat -> bool, j: nat)
    requires j >= n
    ensures j !in Positions(n, p)
  {
    var r := Positions(n, p);
    assert forall k :: 0 <= k < |r| ==> r[k] != j;
  }

  /** Two tests that agree below `n` select the same positions. */
  lemma {:induction false} PositionsAgree(n: nat, p: nat -> bool, q: nat -> bool)
    requires forall j: nat :: j < n ==> p(j) == q(j)
    ensures Positions(n, p) == Positions(n, q)
  {
    if n > 0 {
      PositionsAgree(n - 1, p, q);
    }
  }

  /** A header is listed for each numeric position and only for those, in header order. */
  lemma NumericColumnsMeaning(headers: seq<string>, rows: seq<seq<string>>, isNumeric: string -> bool)
    ensures |NumericColumns(headers, rows, isNumeric)| <= |headers|
    ensures forall j :: 0 <= j < |headers| && IsNumericColumn(rows, j, isNumeric) ==>
      headers[j] in NumericColumns(headers, rows, isNumeric)
    ensures forall c :: c in NumericColumns(headers, rows, isNumeric) ==>
      exists j :: 0 <= j < |headers| && headers[j] == c && IsNumericColumn(rows, j, isNumeric)
  {
    var idx := NumericIndices(rows, isNumeric, |headers|);
    NumericIndicesMeaning(rows, isNumeric, |headers|);
    assert forall k :: 0 <= k < |idx| ==> idx[k] < |headers|;
    StrictlyIncreasingBound(idx, |headers|);
    var cols := NumericColumns(headers, rows, isNumeric);
    forall j | 0 <= j < |headers| && IsNumericColumn(rows, j, isNumeric)
      ensures headers[j] in cols
    {
      var k :| 0 <= k < |idx| && idx[k] == j;
      assert cols[k] == headers[j];
    }
    forall c | c in cols
      ensures exists j :: 0 <= j < |headers| && headers[j] == c && IsNumericColumn(rows, j, isNumeric)
    {
      var k :| 0 <= k < |cols| && cols[k] == c;
      assert idx[k] in idx;
    }
  }

  /** A strictly increasing sequence of positions below `n` has at most `n` elements. */
  lemma {:induction false} StrictlyIncreasingBound(idx: seq<nat>, n: nat)
    requires forall k :: 0 <= k < |idx| ==> idx[k] < n
    requires forall a, b :: 0 <= a < b < |idx| ==> idx[a] < idx[b]
    ensures |idx| <= n
  {
    if idx != [] {
      var last := idx[|idx| - 1];
      StrictlyIncreasingBound(idx[..|idx| - 1], last);
    }
  }

  /** A column with no non-empty field among the first ten rows is never numeric. */
  lemma {:induction false} BlankSampleNotNumeric(rows: seq<seq<string>>, i: nat, isNumeric: string -> bool)
    requires forall k :: 0 <= k < |rows| && k < SampleRows ==> i >= |rows[k]| || rows[k][i] == ""
    ensures !IsNumericColumn(rows, i, isNumeric)
  {
    NonEmptyAtBlank(Prefix(rows, SampleRows), i);
  }

  lemma {:induction false} NonEmptyAtBlank(rows: seq<seq<string>>, i: nat)
    requires forall k :: 0 <= k < |rows| ==> i >= |rows[k]| || rows[k][i] == ""
    ensures NonEmptyAt(rows, i) == []
  {
    if rows != [] {
      NonEmptyAtBlank(rows[1..], i);
    }
  }

  /** Rows past the tenth never change the classification. */
  lemma {:induction false} NumericColumnsFirstRowsOnly(headers: seq<string>, rows1: seq<seq<string>>,
                                                       rows2: seq<seq<string>>, isNumeric: string -> bool)
    requires Prefix(rows1, SampleRows) == Prefix(rows2, SampleRows)
    ensures NumericColumns(headers, rows1, isNumeric) == NumericColumns(headers, rows2, isNumeric)
  {
    NumericIndicesFirstRowsOnly(rows1, rows2, isNumeric, |headers|);
  }

  lemma NumericIndicesFirstRowsOnly(rows1: seq<seq<string>>, rows2: seq<seq<string>>, isNumeric: string -> bool, n: nat)
    requires Prefix(rows1, SampleRows) == Prefix(rows2, SampleRows)
    ensures NumericIndices(rows1, isNumeric, n) == NumericIndices(rows2, isNumeric, n)
  {
    forall j: nat | j < n ensures NumericAt(rows1, isNumeric)(j) == NumericAt(rows2, isNumeric)(j) {
      assert Sample(rows1, j) == Sample(rows2, j);
    }
    PositionsAgree(n, NumericAt(rows1, isNumeric), NumericAt(rows2, isNumeric));
  }
}
