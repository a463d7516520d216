/**
  The text `get_preview(n)` builds: the header line, a line of dashes as
  long as the header line, then one line per row among the first `n`, all
  joined by newlines. Each line is its fields, every one left-aligned in
  at least twenty characters, joined by " | ".
 */
module Preview {
  import opened Prelude
  import opened Text

  /** The width of the format spec `:20`. */
  const FieldWidth: nat := 20

  /** `get_preview`'s default `n`. */
  const DefaultPreviewRows: int := 20

  /** The fields of a line, each as `f"{v:20}"`. */
  function PadFields(fields: seq<string>): (r: seq<string>)
    ensures |r| == |fields|
    ensures forall k :: 0 <= k < |fields| ==> r[k] == PadRight(fields[k], FieldWidth)
  {
    if fields == [] then [] else PadFields(fields[..|fields| - 1]) + [PadRight(fields[|fields| - 1], FieldWidth)]
  }

  /** `" | ".join(f"{v:20}" for v in fields)`. */
  function FormatLine(fields: seq<string>): string
  {
    Join(" | ", PadFields(fields))
  }

  /** The formatted line of each row, in order. */
  function RowLines(rows: seq<seq<string>>): (r: seq<string>)
    ensures |r| == |rows|
    ensures forall k :: 0 <= k < |rows| ==> r[k] == FormatLine(rows[k])
  {
    if rows == [] then [] else RowLines(rows[..|rows| - 1]) + [FormatLine(rows[|rows| - 1])]
  }

  /** The list `lines` of `get_preview(n)`. */
  function PreviewLines(headers: seq<string>, rows: seq<seq<string>>, n: int): seq<string>
  {
    var headerLine := FormatLine(headers);
    [headerLine, Repeat('-', |headerLine|)] + RowLines(Prefix(rows, n))
  }

  /** `get_preview(n)`. */
  function PreviewText(headers: seq<string>, rows: seq<seq<string>>, n: int): string
  {
    Join("\n", PreviewLines(headers, rows, n))
  }

  /** One turn of `get_preview`'s loop: row `i`'s line goes after the lines before it. */
  lemma RowLinesStep(top: seq<string>, rows: seq<seq<string>>, i: nat)
    requires i < |rows|
    ensures (top + RowLines(rows[..i])) + [FormatLine(rows[i])] == top + RowLines(rows[..i + 1])
  {
    assert rows[..i + 1][..i] == rows[..i];
  }

  // ---------------------------------------------------------------------
  // Properties

  /**
    The preview has 2 + min(n, R) lines for a non-negative n: the header
    line, dashes as many as its characters, then row k's line at position
    k + 2, in row order.
   */
  lemma PreviewShape(headers: seq<string>, rows: seq<seq<string>>, n: int)
    ensures |PreviewLines(headers, rows, n)| == 2 + PrefixLen(n, |rows|)
    ensures 0 <= n ==> |PreviewLines(headers, rows, n)| == 2 + Min(n, |rows|)
    ensures PreviewLines(headers, rows, n)[0] == FormatLine(headers)
    ensures |PreviewLines(headers, rows, n)[1]| == |FormatLine(headers)|
    ensures forall i :: 0 <= i < |FormatLine(headers)| ==> PreviewLines(headers, rows, n)[1][i] == '-'
    ensures forall k :: 0 <= k < PrefixLen(n, |rows|) ==> PreviewLines(headers, rows, n)[k + 2] == FormatLine(rows[k])
  {
    var lines := PreviewLines(headers, rows, n);
    forall k | 0 <= k < PrefixLen(n, |rows|) ensures lines[k + 2] == FormatLine(rows[k]) {
      assert lines[k + 2] == RowLines(Prefix(rows, n))[k];
    }
  }

  /** The length of a joined sequence: the parts plus one separator between each two. */
  lemma {:induction false} JoinLength(sep: string, parts: seq<string>, total: nat)
    requires parts != []
    requires total == SumLengths(parts)
    ensures |Join(sep, parts)| == total + |sep| * (|parts| - 1)
  {
    if |parts| > 1 {
      var init := parts[..|parts| - 1];
      JoinLength(sep, init, SumLengths(init));
    }
  }

  function SumLengths(parts: seq<string>): nat
  {
    if parts == [] then 0 else SumLengths(parts[..|parts| - 1]) + |parts[|parts| - 1]|
  }

  /** A joined sequence starts with its first part. */
  lemma {:induction false} JoinStartsWithFirst(sep: string, parts: seq<string>)
    requires parts != []
    ensures parts[0] <= Join(sep, parts)
  {
    if |parts| > 1 {
      var init := parts[..|parts| - 1];
      JoinStartsWithFirst(sep, init);
      assert init[0] == parts[0];
    }
  }

  /**
    Every field takes at least twenty characters, so a line of m fields is
    at least 20 * m + 3 * (m - 1) characters long, and exactly that when no
    field is longer than twenty.
   */
  lemma {:induction false} FormatLineWidth(fields: seq<string>)
    requires fields != []
    ensures |FormatLine(fields)| >= 23 * |fields| - 3
    ensures (forall k :: 0 <= k < |fields| ==> |fields[k]| <= FieldWidth) ==> |FormatLine(fields)| == 23 * |fields| - 3
  {
    var padded := PadFields(fields);
    JoinLength(" | ", padded, SumLengths(padded));
    PaddedLengths(fields);
  }

  lemma {:induction false} PaddedLengths(fields: seq<string>)
    ensures SumLengths(PadFields(fields)) >= 20 * |fields|
    ensures (forall k :: 0 <= k < |fields| ==> |fields[k]| <= FieldWidth) ==> SumLengths(PadFields(fields)) == 20 * |fields|
  {
    if fields != [] {
      var n := |fields| - 1;
      var init := fields[..n];
      var last := PadRight(fields[n], FieldWidth);
      PaddedLengths(init);
      assert PadFields(fields) == PadFields(init) + [last];
      SumLengthsSnoc(PadFields(init), last);
      if forall k :: 0 <= k < |fields| ==> |fields[k]| <= FieldWidth {
        assert |fields[n]| <= FieldWidth;
        forall k | 0 <= k < |init| ensures |init[k]| <= FieldWidth {
          assert init[k] == fields[k];
        }
      }
    }
  }

  lemma SumLengthsSnoc(parts: seq<string>, last: string)
    ensures SumLengths(parts + [last]) == SumLengths(parts) + |last|
  {
    assert (parts + [last])[..|parts|] == parts;
  }

  /** The preview text begins with the header line. */
  lemma PreviewStartsWithHeader(headers: seq<string>, rows: seq<seq<string>>, n: int)
    ensures FormatLine(headers) <= PreviewText(headers, rows, n)
  {
    JoinStartsWithFirst("\n", PreviewLines(headers, rows, n));
  }
}
