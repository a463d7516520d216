# CSV parser with embedding retrieval — a Dafny model

This project models `CSVParser`, the data side of a document summarizer. The class holds four
fields:

- the header record and the rows of a CSV file;
- the text chunks built from them;
- one embedding vector per chunk.

It turns the rows into chunks with `create_chunks`, and obtains a vector per chunk from an
embedding service with `generate_embeddings`. `find_relevant_chunks` then ranks the chunks
against a query by cosine similarity. The class also has column helpers (`get_column`,
`get_numeric_columns`, `get_stats`, `to_dict`) and a text table preview (`get_preview`).

The model has one Dafny class, `CsvParser.CSVParser`, with the same four fields. Its methods
update those fields the way the Python methods do. The constructor, `Load` and `Open` state the
new fields directly. Every other method is proved against a specification function defined in
a pure module:

- `Prelude`: Option, the Python exceptions that can escape, and Python's `s[:k]`.
- `Text`: `join`, `str(n)`, `f"{s:20}"` and `c * n`.
- `Records`: `dict(zip(headers, row))` with Python's dict semantics, repeated keys included.
- `Columns`: `get_column`, the rule that marks a column numeric from its first ten rows, and the
  count of `get_stats`.
- `Chunking`: the chunk list.
- `Similarity`: `cosine_similarity` and the 768-long zero fallback vector.
- `Ranking`: the stable descending sort.
- `Retrieval`: `find_relevant_chunks`.
- `Preview`: `get_preview`.

Calls the model cannot see are parameters:

- `float()` is `isNumeric: string -> bool`.
- `json.dumps` is `dumps: Record -> string`.
- The quotient `dot / (norm * norm)` is `ratio`.
- Each embedding call to the service is a reply: `Some(vector)`, or `None` when the call raised.
- The file is given as the list of records `csv.reader` would yield.

Two behaviours of the code worth noting:

- With no stored embeddings, `find_relevant_chunks` returns `[]` (CSVParser.py:65-66); it does
  not fall back to the first `top_k` chunks.
- `create_chunks` does not reset the embeddings (CSVParser.py:19-40). Embeddings from an earlier,
  larger chunk list therefore stay in use. When one of them is selected, `self.chunks[i]` raises
  IndexError. This is `Retrieval.StaleEmbeddingsRaise`. Whether the embeddings are current is
  tracked outside this class.

The defaults `chunk_size=10`, `top_k=3` and `n=20` are the parameter defaults of
`CreateChunks`, `FindRelevantChunks` and `GetPreview`.

## Model

| member | source | states |
|---|---|---|
| CsvParser.CSVParser.constructor | CSVParser.py:5-10 | all four fields start empty |
| CsvParser.CSVParser.Load | CSVParser.py:13-17 | the first record becomes the headers and the rest the rows; an empty file raises StopIteration and leaves both fields unchanged |
| CsvParser.Open | CSVParser.py:5-17 | constructing the parser raises StopIteration exactly when the file has no record; otherwise it is a fresh object with the headers, the rows, no chunks and no embeddings |
| CsvParser.CSVParser.GetColumn | CSVParser.py:107-113 | never longer than the row list; a name that is not a header gives the empty column |
| Columns.FirstIndex | CSVParser.py:110 | `headers.index(name)`: None exactly when the name is absent; otherwise a position holding the name with no earlier position holding it |
| Columns.ColumnLookup | CSVParser.py:107-113 | an absent name gives []; a present one gives the column at its first position |
| Columns.ColumnAtAppend | CSVParser.py:111 | the column of two row lists joined is the two columns joined: one field per row, in row order |
| Columns.ColumnAtFull | CSVParser.py:111 | when every row reaches the position, the column has exactly one value per row, the k-th from row k |
| Columns.NonEmptyAt | CSVParser.py:119 | the sample skips short rows and empty fields, so it holds only non-empty values and has at most one per row |
| Columns.NonEmptyAtAppend | CSVParser.py:119 | the sample of two row lists joined is the two samples joined, in row order |
| Columns.NonEmptyAtSingle | CSVParser.py:119 | a row contributes its field at the position exactly when it has one and it is not empty |
| CsvParser.CSVParser.GetNumericColumns | CSVParser.py:115-122 | the loop returns exactly the specification list of numeric headers |
| Columns.NumericIndicesMeaning | CSVParser.py:118-121 | the selected positions are exactly those whose sample is non-empty and all numeric, each once, in increasing order |
| Columns.NumericColumnsMeaning | CSVParser.py:115-122 | the header of every numeric position is listed, every listed header is one of a numeric position, and the list is no longer than the header record |
| Columns.NumericColumnsFirstRowsOnly | CSVParser.py:119 | two row lists that agree on their first ten rows give the same numeric columns |
| Columns.BlankSampleNotNumeric | CSVParser.py:119-120 | a column with no non-empty field in the first ten rows is never numeric |
| Columns.Numeric | CSVParser.py:134 | keeps only numeric values, never more than it is given, and is empty exactly when no value is numeric |
| Columns.NumericAppend | CSVParser.py:134 | filtering two lists joined gives the two filtered lists joined: every numeric value is kept, in order |
| Columns.NumericSingle | CSVParser.py:134 | one value is kept exactly when it is numeric |
| Columns.NumericAll | CSVParser.py:134 | a list of numeric values is kept whole |
| Columns.StatsCount | CSVParser.py:132-139 | None exactly when no value of the column is numeric, an absent column included; otherwise `len(values)`, the number of numeric values of the column, between 1 and the number of rows |
| CsvParser.CSVParser.GetStatsCount | CSVParser.py:132-139 | None exactly when the column has no numeric value, and always for an absent column; otherwise the number of its numeric values, between 1 and the number of rows |
| Records.Zip | CSVParser.py:35 | `zip` stops at the shorter list and pairs the i-th header with the i-th field |
| Records.RowDictMeaning | CSVParser.py:35 | a row's record has distinct keys, exactly the headers among the first min(headers, fields); each key holds the field of its last column; it never has more entries than pairs |
| Records.RowDictDistinctHeaders | CSVParser.py:35 | with distinct headers the record is the zipped pairs themselves, in header order |
| Records.ToRecords | CSVParser.py:149 | one record per row, the k-th built from row k |
| CsvParser.CSVParser.ToDict | CSVParser.py:147-149 | one record per row, in row order |
| Text.NatToString | CSVParser.py:25 | `str(n)` is one or more decimal digits without a leading zero |
| Text.NatToStringValue | CSVParser.py:25-32 | the digits of `str(n)` read back in base ten give n, so the row counts and labels name the right numbers |
| Text.NatToStringInjective | CSVParser.py:25-32 | different numbers give different strings |
| CsvParser.CSVParser.CreateChunks | CSVParser.py:19-40 | a positive chunk size leaves the full chunk list and returns its length; 0 leaves only the metadata chunk and raises ValueError; a negative size leaves only the metadata chunk and returns 1 |
| CsvParser.CSVParser.RowChunks | CSVParser.py:30-38 | the outer loop produces the chunk of every row group, in group order |
| CsvParser.CSVParser.RowChunk | CSVParser.py:31-36 | one iteration of the outer loop builds its group's chunk text: the label, then one serialized record per row |
| CsvParser.CSVParser.AppendRecordLines | CSVParser.py:34-36 | the inner loop appends the serialized record of every row of the group, in order, each followed by a newline |
| Chunking.AccumulateGroups | CSVParser.py:30-38 | what the outer loop accumulates, starting from any list, is that list followed by the text of every group from the current row on |
| Chunking.GroupCount | CSVParser.py:30 | `range(from, R, B)` yields ceil((R - from) / B) groups |
| Chunking.GroupAt | CSVParser.py:30-31 | group k starts at row from + k·B, before the last row, and holds the rows from its start up to min(R, start + B) |
| Chunking.GroupSizes | CSVParser.py:31 | every group holds between 1 and B rows, and every group but the last holds exactly B |
| Chunking.GroupsCover | CSVParser.py:30-31 | the groups joined in order are the rows from `from` on: each row once, in order |
| Chunking.RowGroupsPartition | CSVParser.py:30-31 | the groups partition the rows in order; group k starts at row k·B; each holds B rows but the last, which holds 1 to B |
| Chunking.ChunksShape | CSVParser.py:19-40 | for R rows and a size B ≥ 1 there are 1 + ceil(R / B) chunks; chunk 0 is the metadata chunk and chunk k + 1 is the text of group k |
| Chunking.TwentyFiveRowsByTen | CSVParser.py:19-40 | 25 rows in groups of 10 give four chunks, the last group holding rows 21 to 25 |
| Similarity.ZeroVector | CSVParser.py:57 | `[0] * n` has length n and only zeros |
| CsvParser.CSVParser.GenerateEmbeddings | CSVParser.py:42-59 | one embedding per chunk, whatever the failures; a successful call stores its vector and a failed one the 768-long zero vector; returns the count |
| Similarity.Cosine | CSVParser.py:93-105 | raises ValueError exactly when the lengths differ, before any norm is used; a zero vector on either side scores 0 |
| Similarity.FallbackScoresZero | CSVParser.py:102-103 | the fallback vector scores 0 against any 768-long vector, on either side; against any other length, `np.dot` raises |
| Ranking.Insert | CSVParser.py:86 | inserting adds exactly the new pair to the multiset of pairs |
| Ranking.SortByScore | CSVParser.py:86 | the sort is a permutation of the pairs |
| Ranking.SortRanked | CSVParser.py:86 | pairs created in index order come out with scores non-increasing and equal scores in ascending index order |
| Ranking.RankedUnique | CSVParser.py:86 | two such orderings of the same pairs are the same list, so any stable sort gives this result |
| Ranking.SortByScoreMeaning | CSVParser.py:86 | the sort is the unique permutation with scores non-increasing and ties by ascending index |
| Ranking.SortEqualScores | CSVParser.py:86 | when all scores are equal, the sort leaves the list as it was |
| Retrieval.Scores | CSVParser.py:80-83 | succeeds exactly when every stored vector has the query's length, and otherwise raises ValueError; gives one pair per embedding, pair k holding index k and its cosine |
| Retrieval.SelectChunks | CSVParser.py:89 | succeeds exactly when every selected index has a chunk, and otherwise raises IndexError; the k-th result is the chunk at the k-th index |
| Retrieval.Retrieve | CSVParser.py:61-90 | [] with no embeddings; the first `top_k` chunks when the query call failed; ValueError when a stored vector's length differs from the query's |
| CsvParser.CSVParser.FindRelevantChunks | CSVParser.py:61-90 | the loop and sort compute exactly the specification result, errors included |
| Retrieval.RankOrderMeaning | CSVParser.py:80-86 | the ranking holds every embedding index once with its cosine, scores non-increasing and ties by ascending index |
| Retrieval.RetrieveRanked | CSVParser.py:80-90 | with a chunk for every embedding, the call succeeds with min(top_k, n) chunks (Python's slice length for any top_k), the k-th being the chunk at the k-th ranked index |
| Retrieval.EqualScoresKeepOrder | CSVParser.py:86-89 | when all scores are equal, the result is the first `top_k` embedded chunks in index order |
| Retrieval.AllFallbackKeepsOrder | CSVParser.py:86-89 | with only fallback vectors stored and a 768-long query, the result is the first `top_k` chunks in order |
| Retrieval.StaleEmbeddingsRaise | CSVParser.py:89 | more embeddings than chunks, all of them selected, makes the call raise IndexError |
| Text.PadRight | CSVParser.py:154 | `f"{s:w}"` keeps `s` as its prefix, pads it with spaces only, and is w long or, when `s` is longer, as long as `s` |
| Text.Repeat | CSVParser.py:156 | `c * n` is n copies of c |
| Preview.PadFields | CSVParser.py:154 | one padded field per field, in order |
| Preview.RowLines | CSVParser.py:158-160 | one formatted line per row, in order |
| Preview.FormatLineWidth | CSVParser.py:154 | a line of m ≥ 1 fields is at least 23·m − 3 characters long, and exactly that when no field exceeds 20 characters |
| Preview.JoinLength | CSVParser.py:154 | a join is as long as its parts plus one separator between each two |
| Preview.PreviewShape | CSVParser.py:151-162 | 2 + min(n, R) lines for n ≥ 0 (the slice length for any n): the header line, as many dashes as it has characters, then row k's line at position k + 2 |
| Preview.PreviewStartsWithHeader | CSVParser.py:162 | the preview text begins with the header line |
| CsvParser.CSVParser.GetPreview | CSVParser.py:151-162 | the loop builds exactly the specification text |

## Left out

- The file itself: opening and decoding it, and `csv.reader`'s quoting rules. `Load` and `Open` take the records the reader yields.
- `is_numeric` (CSVParser.py:124-130) is a `try` around `float()`. Parsing floats is not modelled: whether a value is numeric is the parameter `isNumeric`.
- `get_stats`' mean, median, minimum, maximum and standard deviation are floating point and not modelled; only the None case and the count are.
- `json.dumps` is the parameter `dumps`: the JSON text of a record is not modelled.
- The ollama calls and the `model` arguments are network I/O. The embedding service's answers are parameters: one reply per chunk, and one for the query.
- The `print` calls that log failed embedding calls are left out.
- Similarity.Cosine: the value `dot / (norm1 * norm2)` for non-zero vectors is the parameter `ratio`. The contract therefore does not state that the value lies in [-1, 1] or that a vector scores 1 against itself.
- Similarity.ZeroNorm: `norm == 0` is stated as "every component is zero", which is what it means for a Euclidean norm over the reals. IEEE rounding, underflow and NaN are not modelled.
- Ranking.SortByScore: Python's `list.sort` is modelled by a stable insertion sort. `Ranking.RankedUnique` shows that every stable sort gives the same list.
- CsvParser.CSVParser.RowChunks: the outer loop collects its texts in a local list, and `CreateChunks` appends them to the field once the loop ends. The source appends each text to `self.chunks` as it goes. Nothing reads the field in between, so the final list is the same.
- A non-integer `chunk_size`, `top_k` or `n` (a Python TypeError) is not modelled. These arguments are integers here.
- CSVSummarizer.py and OllamaServer.py are not part of this model.
