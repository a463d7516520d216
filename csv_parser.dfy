/**
  The parser object: the parsed header record and rows, the chunk texts
  built from them and one embedding per chunk.

  The file itself is not read here: `Open` and `Load` take the records
  `csv.reader` would yield. The embedding service is its replies: one per
  chunk for `GenerateEmbeddings` and one for the query in
  `FindRelevantChunks`, None standing for a call that raised.
 */
module CsvParser {
  import opened Prelude
  import opened Text
  import opened Records
  import opened Columns
  import opened Chunking
  import opened Similarity
  import opened Ranking
  import opened Retrieval
  import opened Preview

  class CSVParser {
    var headers: seq<string>
    var rows: seq<seq<string>>
    var chunks: seq<string>
    var embeddings: seq<seq<real>>

    /** The fields as `__init__` sets them before it calls `load`. */
    constructor ()
      ensures headers == [] && rows == [] && chunks == [] && embeddings == []
    {
      headers := [];
      rows := [];
      chunks := [];
      embeddings := [];
    }

    /**
      `load()`: the first record becomes the headers, the rest the rows. A
      file without any record makes `next(reader)` raise StopIteration
      before anything is assigned.
     */
    method Load(records: seq<seq<string>>) returns (err: Option<PyError>)
      modifies this`headers, this`rows
      ensures err.Some? <==> records == []
      ensures err.Some? ==> err.value == StopIteration && headers == old(headers) && rows == old(rows)
      ensures err.None? ==> headers == records[0] && rows == records[1..]
    {
      if records == [] {
        return Some(StopIteration);
      }
      headers := records[0];
      rows := records[1..];
      return None;
    }

    /** `get_column(col_name)`. */
    function GetColumn(name: string): (r: seq<string>)
      reads this
      ensures |r| <= |rows|
      ensures name !in headers ==> r == []
    {
      Column(headers, rows, name)
    }

    /** `get_numeric_columns()`: the headers whose sampled values are all numeric, in header order. */
    method GetNumericColumns(isNumeric: string -> bool) returns (cols: seq<string>)
      ensures cols == NumericColumns(headers, rows, isNumeric)
    {
      cols := [];
      var i := 0;
      while i < |headers|
        invariant 0 <= i <= |headers|
        invariant cols == Project(headers, NumericIndices(rows, isNumeric, i))
      {
        var sample := Sample(rows, i);
        if sample != [] && forall k :: 0 <= k < |sample| ==> isNumeric(sample[k]) {
          cols := cols + [headers[i]];
        }
        i := i + 1;
      }
    }

    /** `get_stats(col_name)['count']`, or None where `get_stats` returns None. */
    function GetStatsCount(name: string, isNumeric: string -> bool): (r: Option<nat>)
      reads this
      ensures r.Some? ==> 1 <= r.value <= |rows|
      ensures r.Some? ==> r.value == |Numeric(Column(headers, rows, name), isNumeric)|
      ensures r.None? <==> Numeric(Column(headers, rows, name), isNumeric) == []
      ensures name !in headers ==> r.None?
    {
      StatsCount(headers, rows, name, isNumeric)
    }

    /** `to_dict()`: one record per row, in row order. */
    function ToDict(): (r: seq<Record>)
      reads this
      ensures |r| == |rows|
      ensures forall k :: 0 <= k < |rows| ==> r[k] == RowDict(headers, rows[k])
    {
      ToRecords(headers, rows)
    }

    /**
      `create_chunks(chunk_size)`. The chunk list is reset and the metadata
      chunk appended first, so a `chunk_size` of 0 leaves exactly that
      chunk behind when `range` raises ValueError; a negative one yields no
      row group. Headers, rows and embeddings are left as they are.
     */
    method CreateChunks(isNumeric: string -> bool, dumps: Record -> string, chunkSize: int := DefaultChunkSize) returns (r: Outcome<nat>)
      modifies this`chunks
      ensures chunkSize == 0 ==> r == Raised(ValueError)
      ensures chunkSize <= 0 ==> chunks == [MetaChunk(headers, |rows|, NumericColumns(headers, rows, isNumeric))]
      ensures chunkSize < 0 ==> r == Ok(1)
      ensures chunkSize > 0 ==> chunks == Chunks(headers, rows, chunkSize, NumericColumns(headers, rows, isNumeric), dumps)
      ensures chunkSize > 0 ==> r == Ok(|chunks|)
    {
      chunks := [];
      var numeric := GetNumericColumns(isNumeric);
      var meta := MetaChunk(headers, |rows|, numeric);
      chunks := chunks + [meta];
      assert chunks == [meta];
      if chunkSize == 0 {
        r := Raised(ValueError);
      } else {
        if chunkSize > 0 {
          var texts := RowChunks(chunkSize, dumps);
          chunks := chunks + texts;
        }
        r := Ok(|chunks|);
      }
    }

    /**
      `create_chunks`' outer loop: the chunk of each group of `size` rows,
      in row order. The texts are collected here and appended to the chunk
      list by the caller in one step; nothing reads the list while the loop
      runs, so it ends up the same as when each text is appended in turn.
     */
    method RowChunks(size: nat, dumps: Record -> string) returns (texts: seq<string>)
      requires size >= 1
      ensures texts == RowChunkTexts(headers, GroupsFrom(rows, size, 0), dumps)
    {
      texts := [];
      var i: nat := 0;
      while i < |rows|
        invariant Accumulate(rows, size, ChunkOf(headers, dumps), texts, i) == Accumulate(rows, size, ChunkOf(headers, dumps), [], 0)
        decreases |rows| - i
      {
        var chunkRows := rows[i..Min(i + size, |rows|)];
        var chunkText := RowChunk(i, chunkRows, dumps);
        texts := texts + [chunkText];
        i := i + size;
      }
      AccumulateGroups(rows, size, ChunkOf(headers, dumps), [], 0);
    }

    /** The body of `create_chunks`' outer loop: the label, then one serialized record per row. */
    method RowChunk(start: nat, chunkRows: seq<seq<string>>, dumps: Record -> string) returns (chunkText: string)
      ensures chunkText == RowChunkText(headers, start, chunkRows, dumps)
    {
      chunkText := RowLabel(start, |chunkRows|);
      chunkText := AppendRecordLines(chunkText, chunkRows, dumps);
    }

    /** `create_chunks`' inner loop: appends `json.dumps(dict(zip(headers, row))) + "\n"` for each row. */
    method AppendRecordLines(text: string, chunkRows: seq<seq<string>>, dumps: Record -> string) returns (chunkText: string)
      ensures chunkText == text + RecordLines(headers, chunkRows, dumps)
    {
      chunkText := text;
      var j := 0;
      while j < |chunkRows|
        invariant 0 <= j <= |chunkRows|
        invariant chunkText == text + RecordLines(headers, chunkRows[..j], dumps)
      {
        RecordLinesStep(headers, chunkRows, j, dumps);
        chunkText := chunkText + dumps(RowDict(headers, chunkRows[j])) + "\n";
        j := j + 1;
      }
      assert chunkRows[..j] == chunkRows;
    }

    /**
      `generate_embeddings()`: the list is reset and each chunk's reply
      appended in chunk order, the zero fallback for a failed call; a
      failure does not stop the loop. Returns the number stored.
     */
    method GenerateEmbeddings(replies: seq<Option<seq<real>>>) returns (count: nat)
      requires |replies| == |chunks|
      modifies this`embeddings
      ensures count == |embeddings| == |chunks|
      ensures forall i :: 0 <= i < |chunks| ==> embeddings[i] == StoredEmbedding(replies[i])
      ensures forall i :: 0 <= i < |chunks| && replies[i].None? ==> embeddings[i] == ZeroVector(FallbackDim)
    {
      embeddings := [];
      var i := 0;
      while i < |chunks|
        invariant 0 <= i <= |chunks|
        invariant |embeddings| == i
        invariant forall k :: 0 <= k < i ==> embeddings[k] == StoredEmbedding(replies[k])
      {
        if replies[i].Some? {
          embeddings := embeddings + [replies[i].value];
        } else {
          embeddings := embeddings + [ZeroVector(FallbackDim)];
        }
        i := i + 1;
      }
      return |embeddings|;
    }

    /**
      `find_relevant_chunks(query, top_k)`, `query` being the service's
      reply for the query text.
     */
    method FindRelevantChunks(query: Option<seq<real>>, ratio: Ratio, topK: int := DefaultTopK) returns (r: Outcome<seq<string>>)
      ensures r == Retrieve(chunks, embeddings, query, topK, ratio)
    {
      if embeddings == [] {
        return Ok([]);
      }
      if query.None? {
        return Ok(Prefix(chunks, topK));
      }
      var q := query.value;
      var similarities: seq<Scored> := [];
      var i := 0;
      while i < |embeddings|
        invariant 0 <= i <= |embeddings|
        invariant Scores(q, embeddings[..i], ratio) == Ok(similarities)
      {
        assert embeddings[..i + 1][..i] == embeddings[..i];
        var similarity := Cosine(q, embeddings[i], ratio);
        if similarity.Raised? {
          assert Scores(q, embeddings, ratio).Raised?;
          return Raised(similarity.error);
        }
        similarities := similarities + [Scored(i, similarity.value)];
        i := i + 1;
      }
      assert embeddings[..i] == embeddings;
      var ranked := SortByScore(similarities);
      r := SelectChunks(chunks, Prefix(ranked, topK));
    }

    /** `get_preview(n)`. */
    method GetPreview(n: int := DefaultPreviewRows) returns (text: string)
      ensures text == PreviewText(headers, rows, n)
    {
      var lines: seq<string> := [];
      var headerLine := FormatLine(headers);
      lines := lines + [headerLine];
      lines := lines + [Repeat('-', |headerLine|)];
      var shown := Prefix(rows, n);
      var i := 0;
      while i < |shown|
        invariant 0 <= i <= |shown|
        invariant lines == [headerLine, Repeat('-', |headerLine|)] + RowLines(shown[..i])
      {
        RowLinesStep([headerLine, Repeat('-', |headerLine|)], shown, i);
        lines := lines + [FormatLine(shown[i])];
        i := i + 1;
      }
      assert shown[..i] == shown;
      text := Join("\n", lines);
    }
  }

  /** `CSVParser(filepath)`: a parser over the records of the file, or the error `load` raises. */
  method Open(records: seq<seq<string>>) returns (r: Outcome<CSVParser>)
    ensures r.Raised? <==> records == []
    ensures r.Raised? ==> r.error == StopIteration
    ensures r.Ok? ==> fresh(r.value) && r.value.headers == records[0] && r.value.rows == records[1..]
    ensures r.Ok? ==> r.value.chunks == [] && r.value.embeddings == []
  {
    var p := new CSVParser();
    var err := p.Load(records);
    if err.Some? {
      return Raised(err.value);
    }
    return Ok(p);
  }
}
