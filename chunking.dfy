/**
  The chunk list `create_chunks` builds: one metadata chunk, then one chunk
  per group of `chunk_size` consecutive rows, the last group possibly
  shorter. A row chunk starts with the label "Rows a to b:" (1-based, both
  ends included) and holds one serialized record per row, each on its own
  line. `json.dumps` is not modelled: the serializer is the parameter
  `dumps`.
 */
module Chunking {
  import opened Prelude
  import opened Text
  import opened Records

  /** `create_chunks`' default `chunk_size`. */
  const DefaultChunkSize: nat := 10

  /** The metadata chunk: column list, row count and numeric columns. */
  function MetaChunk(headers: seq<string>, rowCount: nat, numericColumns: seq<string>): string
  {
    "CSV Metadata:\nColumns: " + Join(", ", headers) + "\n"
    + "Total rows: " + NatToString(rowCount) + "\n"
    + "Numeric columns: " + Join(", ", numericColumns) + "\n"
  }

  /** One line `dumps(dict(zip(headers, row))) + "\n"` per row of the group, in order. */
  function RecordLines(headers: seq<string>, group: seq<seq<string>>, dumps: Record -> string): string
  {
    if group == [] then ""
    else RecordLines(headers, group[..|group| - 1], dumps) + dumps(RowDict(headers, group[|group| - 1])) + "\n"
  }

  /** The label line of the group starting at row `start` (0-based). */
  function RowLabel(start: nat, count: nat): string
  {
    "Rows " + NatToString(start + 1) + " to " + NatToString(start + count) + ":\n"
  }

  /** The text of the chunk holding `group`, which starts at row `start`. */
  function RowChunkText(headers: seq<string>, start: nat, group: seq<seq<string>>, dumps: Record -> string): string
  {
    RowLabel(start, |group|) + RecordLines(headers, group, dumps)
  }

  /** Row group `group`, which starts at row `start` (0-based), as `create_chunks` slices it. */
  datatype RowGroup = RowGroup(start: nat, group: seq<seq<string>>)

  /** `(i, rows[i:i+size])` for `i` in `range(from, len(rows), size)`. */
  function GroupsFrom(rows: seq<seq<string>>, size: nat, from: nat): seq<RowGroup>
    requires size >= 1
    decreases |rows| - from
  {
    if from >= |rows| then []
    else [RowGroup(from, rows[from..Min(from + size, |rows|)])] + GroupsFrom(rows, size, from + size)
  }

  /** `text(g)` for each group `g`, in order. */
  function GroupTexts(groups: seq<RowGroup>, text: RowGroup -> string): (r: seq<string>)
    ensures |r| == |groups|
  {
    if groups == [] then [] else [text(groups[0])] + GroupTexts(groups[1..], text)
  }

  /** The text of a group's chunk, as a function of the group. */
  function ChunkOf(headers: seq<string>, dumps: Record -> string): RowGroup -> string
  {
    (g: RowGroup) => RowChunkText(headers, g.start, g.group, dumps)
  }

  /** The text of each group's chunk, in order. */
  function RowChunkTexts(headers: seq<string>, groups: seq<RowGroup>, dumps: Record -> string): seq<string>
  {
    GroupTexts(groups, ChunkOf(headers, dumps))
  }

  /** The whole chunk list for a positive `chunk_size`. */
  function Chunks(headers: seq<string>, rows: seq<seq<string>>, size: nat,
                  numericColumns: seq<string>, dumps: Record -> string): seq<string>
    requires size >= 1
  {
    [MetaChunk(headers, |rows|, numericColumns)] + RowChunkTexts(headers, GroupsFrom(rows, size, 0), dumps)
  }

  /** The rows of the groups, concatenated in group order. */
  function Flatten(groups: seq<RowGroup>): seq<seq<string>>
  {
    if groups == [] then [] else groups[0].group + Flatten(groups[1..])
  }

  // ---------------------------------------------------------------------
  // Arithmetic of ceil(R / B)

  lemma DivSmall(a: nat, b: nat)
    requires 0 < b && a < b
    ensures a / b == 0
  {
  }

  lemma DivStep(a: nat, b: nat)
    requires 0 < b
    ensures (a + b) / b == a / b + 1
  {
    var q, r := a / b, a % b;
    assert a == b * q + r && 0 <= r < b;
    assert a + b == b * (q + 1) + r;
    DivUnique(a + b, b, q + 1, r);
  }

  lemma DivUnique(x: nat, b: nat, q: int, r: int)
    requires 0 < b && 0 <= r < b && x == b * q + r
    ensures x / b == q
  {
    var q', r' := x / b, x % b;
    assert x == b * q' + r' && 0 <= r' < b;
    if q' < q {
      MulGap(b, q', q);
    } else if q < q' {
      MulGap(b, q, q');
    }
  }

  lemma MulGap(b: nat, lo: int, hi: int)
    requires lo < hi
    ensures b * lo + b <= b * hi
  {
    var d := hi - lo - 1;
    assert b * hi == b * lo + b + b * d;
  }

  // ---------------------------------------------------------------------
  // The invariants of the chunk list

  /** For B >= 1 and R rows there are ceil(R / B) groups. */
  lemma {:induction false} GroupCount(rows: seq<seq<string>>, size: nat, from: nat)
    requires size >= 1 && from <= |rows|
    ensures |GroupsFrom(rows, size, from)| == (|rows| - from + size - 1) / size
    decreases |rows| - from
  {
    if from == |rows| {
      DivSmall(size - 1, size);
    } else if from + size >= |rows| {
      assert GroupsFrom(rows, size, from + size) == [];
      DivStep(|rows| - from - 1, size);
      DivSmall(|rows| - from - 1, size);
    } else {
      GroupCount(rows, size, from + size);
      DivStep(|rows| - from - 1, size);
    }
  }

  /** Group k starts at row from + k * size and holds rows up to, excluding, min(R, start + size). */
  lemma {:induction false} GroupAt(rows: seq<seq<string>>, size: nat, from: nat, k: nat)
    requires size >= 1 && k < |GroupsFrom(rows, size, from)|
    ensures GroupsFrom(rows, size, from)[k].start == from + k * size < |rows|
    ensures GroupsFrom(rows, size, from)[k].group == rows[from + k * size..Min(from + k * size + size, |rows|)]
    decreases |rows| - from
  {
    if k > 0 {
      GroupAt(rows, size, from + size, k - 1);
      assert from + size + (k - 1) * size == from + k * size;
    }
  }

  /** Every group is non-empty and holds `size` rows, except that the last may hold fewer. */
  lemma {:induction false} GroupSizes(rows: seq<seq<string>>, size: nat, from: nat)
    requires size >= 1
    ensures forall k :: 0 <= k < |GroupsFrom(rows, size, from)| ==> 1 <= |GroupsFrom(rows, size, from)[k].group| <= size
    ensures forall k :: 0 <= k < |GroupsFrom(rows, size, from)| - 1 ==> |GroupsFrom(rows, size, from)[k].group| == size
    decreases |rows| - from
  {
    if from < |rows| {
      GroupSizes(rows, size, from + size);
    }
  }

  /** Concatenating the groups gives back rows `from..`, each row once, in order. */
  lemma {:induction false} GroupsCover(rows: seq<seq<string>>, size: nat, from: nat)
    requires size >= 1 && from <= |rows|
    ensures Flatten(GroupsFrom(rows, size, from)) == rows[from..]
    decreases |rows| - from
  {
    if from < |rows| {
      var to := Min(from + size, |rows|);
      GroupsCover(rows, size, to);
      if to == |rows| {
        assert GroupsFrom(rows, size, from + size) == GroupsFrom(rows, size, to);
      }
      assert rows[from..] == rows[from..to] + rows[to..];
    }
  }

  /** One text per group, in group order. */
  lemma {:induction false} GroupTextsAt(groups: seq<RowGroup>, text: RowGroup -> string)
    ensures forall k :: 0 <= k < |groups| ==> GroupTexts(groups, text)[k] == text(groups[k])
  {
    if groups != [] {
      GroupTextsAt(groups[1..], text);
    }
  }

  /**
    The chunk list of R rows in groups of B: 1 + ceil(R / B) chunks, the
    first of them the metadata chunk; chunk k + 1 serializes group k, which
    starts at row k * B and holds rows k * B .. min(R, (k + 1) * B) - 1.
   */
  lemma ChunksShape(headers: seq<string>, rows: seq<seq<string>>, size: nat,
                    numericColumns: seq<string>, dumps: Record -> string)
    requires size >= 1
    ensures |Chunks(headers, rows, size, numericColumns, dumps)| == 1 + (|rows| + size - 1) / size
    ensures Chunks(headers, rows, size, numericColumns, dumps)[0] == MetaChunk(headers, |rows|, numericColumns)
    ensures forall k :: 0 <= k < |GroupsFrom(rows, size, 0)| ==>
      Chunks(headers, rows, size, numericColumns, dumps)[k + 1]
        == RowChunkText(headers, GroupsFrom(rows, size, 0)[k].start, GroupsFrom(rows, size, 0)[k].group, dumps)
  {
    GroupCount(rows, size, 0);
    GroupTextsAt(GroupsFrom(rows, size, 0), ChunkOf(headers, dumps));
  }

  /**
    The row groups partition the rows: concatenated in order they are the
    rows; group k starts at row k * B; each holds B rows but the last, which
    holds between 1 and B.
   */
  lemma RowGroupsPartition(rows: seq<seq<string>>, size: nat)
    requires size >= 1
    ensures Flatten(GroupsFrom(rows, size, 0)) == rows
    ensures forall k :: 0 <= k < |GroupsFrom(rows, size, 0)| ==>
      GroupsFrom(rows, size, 0)[k].start == k * size < |rows| &&
      GroupsFrom(rows, size, 0)[k].group == rows[k * size..Min(k * size + size, |rows|)]
    ensures forall k :: 0 <= k < |GroupsFrom(rows, size, 0)| ==> 1 <= |GroupsFrom(rows, size, 0)[k].group| <= size
    ensures forall k :: 0 <= k < |GroupsFrom(rows, size, 0)| - 1 ==> |GroupsFrom(rows, size, 0)[k].group| == size
  {
    GroupsCover(rows, size, 0);
    GroupSizes(rows, size, 0);
    forall k | 0 <= k < |GroupsFrom(rows, size, 0)|
      ensures GroupsFrom(rows, size, 0)[k].start == k * size < |rows|
      ensures GroupsFrom(rows, size, 0)[k].group == rows[k * size..Min(k * size + size, |rows|)]
    {
      GroupAt(rows, size, 0, k);
    }
  }

  /** 25 rows in groups of 10: four chunks, the last row group holding rows 21 to 25. */
  lemma TwentyFiveRowsByTen(headers: seq<string>, rows: seq<seq<string>>, numericColumns: seq<string>, dumps: Record -> string)
    requires |rows| == 25
    ensures |Chunks(headers, rows, 10, numericColumns, dumps)| == 4
    ensures GroupsFrom(rows, 10, 0)[2].start == 20 && GroupsFrom(rows, 10, 0)[2].group == rows[20..]
  {
    GroupCount(rows, 10, 0);
    assert |GroupsFrom(rows, 10, 0)| == 3;
    GroupAt(rows, 10, 0, 2);
  }

  /** One turn of `create_chunks`' inner loop: the record line of row `j` follows those before it. */
  lemma RecordLinesStep(headers: seq<string>, group: seq<seq<string>>, j: nat, dumps: Record -> string)
    requires j < |group|
    ensures RecordLines(headers, group[..j + 1], dumps)
      == RecordLines(headers, group[..j], dumps) + (dumps(RowDict(headers, group[j])) + "\n")
  {
    assert group[..j + 1][..j] == group[..j];
  }

  /** `done` followed by the text of every group from row `i` on, as `create_chunks`' outer loop accumulates them. */
  ghost function Accumulate(rows: seq<seq<string>>, size: nat, text: RowGroup -> string, done: seq<string>, i: nat): seq<string>
    requires size >= 1
    decreases |rows| - i
  {
    if i >= |rows| then done
    else Accumulate(rows, size, text, done + [text(RowGroup(i, rows[i..Min(i + size, |rows|)]))], i + size)
  }

  /** What the outer loop accumulates is the text of each group, after those already done. */
  lemma {:induction false} AccumulateGroups(rows: seq<seq<string>>, size: nat, text: RowGroup -> string, done: seq<string>, i: nat)
    requires size >= 1
    ensures Accumulate(rows, size, text, done, i) == done + GroupTexts(GroupsFrom(rows, size, i), text)
    decreases |rows| - i
  {
    if i < |rows| {
      var t := text(RowGroup(i, rows[i..Min(i + size, |rows|)]));
      var gs := GroupsFrom(rows, size, i);
      AccumulateGroups(rows, size, text, done + [t], i + size);
      assert gs[1..] == GroupsFrom(rows, size, i + size);
      assert done + GroupTexts(gs, text) == (done + [t]) + GroupTexts(gs[1..], text);
    }
  }
}
