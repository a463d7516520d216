/**
  `dict(zip(headers, row))`, the record one CSV row becomes.

  A Python dict keeps its keys in first-insertion order; assigning an
  existing key replaces the value in place. `zip` stops at the shorter of
  its arguments. Headers need not be distinct, so when a name repeats the
  record holds one entry for it, at the position of its first occurrence,
  with the value of its last.
 */
module Records {
  import opened Prelude

  datatype Entry = Entry(key: string, value: string)

  /** An insertion-ordered dictionary from column name to field. */
  type Record = seq<Entry>

  function Keys(d: Record): (ks: seq<string>)
    ensures |ks| == |d|
    ensures forall i :: 0 <= i < |d| ==> ks[i] == d[i].key
  {
    if d == [] then [] else [d[0].key] + Keys(d[1..])
  }

  ghost predicate DistinctKeys(d: Record)
  {
    forall i, j :: 0 <= i < j < |d| ==> d[i].key != d[j].key
  }

  /** `d[k]` as an optional value. */
  function Lookup(d: Record, k: string): Option<string>
  {
    if d == [] then None
    else if d[0].key == k then Some(d[0].value)
    else Lookup(d[1..], k)
  }

  /** `d[k] = v`. */
  function Put(d: Record, k: string, v: string): Record
  {
    if d == [] then [Entry(k, v)]
    else if d[0].key == k then [Entry(k, v)] + d[1..]
    else [d[0]] + Put(d[1..], k, v)
  }

  /** `zip(headers, row)`. */
  function Zip(headers: seq<string>, row: seq<string>): (z: seq<Entry>)
    ensures |z| == Min(|headers|, |row|)
    ensures forall i :: 0 <= i < |z| ==> z[i] == Entry(headers[i], row[i])
  {
    if headers == [] || row == [] then []
    else [Entry(headers[0], row[0])] + Zip(headers[1..], row[1..])
  }

  /** `dict(pairs)`: the pairs are assigned from left to right. */
  function DictOf(pairs: seq<Entry>): Record
  {
    if pairs == [] then []
    else Put(DictOf(pairs[..|pairs| - 1]), pairs[|pairs| - 1].key, pairs[|pairs| - 1].value)
  }

  /** `dict(zip(headers, row))`. */
  function RowDict(headers: seq<string>, row: seq<string>): Record
  {
    DictOf(Zip(headers, row))
  }

  /** The record `to_dict` yields for each row, in row order. */
  function ToRecords(headers: seq<string>, rows: seq<seq<string>>): (r: seq<Record>)
    ensures |r| == |rows|
    ensures forall k :: 0 <= k < |rows| ==> r[k] == RowDict(headers, rows[k])
  {
    if rows == [] then [] else [RowDict(headers, rows[0])] + ToRecords(headers, rows[1..])
  }

  /** The value of the last pair whose key is `k`, if any. */
  function LastMatch(pairs: seq<Entry>, k: string): Option<string>
  {
    if pairs == [] then None
    else if pairs[|pairs| - 1].key == k then Some(pairs[|pairs| - 1].value)
    else LastMatch(pairs[..|pairs| - 1], k)
  }

  // ---------------------------------------------------------------------
  // Dictionary assignment

  lemma {:induction false} PutLookup(d: Record, k: string, v: string, k': string)
    ensures Lookup(Put(d, k, v), k') == if k' == k then Some(v) else Lookup(d, k')
  {
    if d != [] && d[0].key != k {
      PutLookup(d[1..], k, v, k');
    }
  }

  lemma PutKeys(d: Record, k: string, v: string)
    requires DistinctKeys(d)
    ensures DistinctKeys(Put(d, k, v))
    ensures k in Keys(d) ==> Keys(Put(d, k, v)) == Keys(d)
    ensures k !in Keys(d) ==> Keys(Put(d, k, v)) == Keys(d) + [k]
  {
    PutDistinct(d, k, v);
    PutKeysOrder(d, k, v);
  }

  /** Assignment keeps the keys of a dict distinct. */
  lemma {:induction false} PutDistinct(d: Record, k: string, v: string)
    requires DistinctKeys(d)
    ensures DistinctKeys(Put(d, k, v))
  {
    if d != [] && d[0].key != k {
      var p := Put(d[1..], k, v);
      TailDistinct(d);
      PutDistinct(d[1..], k, v);
      PutHasKeys(d[1..], k, v);
      assert d[0].key !in Keys(p);
      ConsDistinct(d[0], p);
      assert Put(d, k, v) == [d[0]] + p;
    }
  }

  /** The tail of a dict with distinct keys has distinct keys, none of them the first key. */
  lemma TailDistinct(d: Record)
    requires DistinctKeys(d) && d != []
    ensures DistinctKeys(d[1..])
    ensures d[0].key !in Keys(d[1..])
  {
    assert forall i :: 0 <= i < |d| - 1 ==> Keys(d[1..])[i] == d[i + 1].key;
  }

  /** An entry whose key is new may go in front. */
  lemma ConsDistinct(e: Entry, p: Record)
    requires DistinctKeys(p) && e.key !in Keys(p)
    ensures DistinctKeys([e] + p)
  {
    assert forall j :: 0 <= j < |p| ==> Keys(p)[j] == p[j].key;
  }

  /** An existing key keeps its place; a new one goes last. */
  lemma {:induction false} PutKeysOrder(d: Record, k: string, v: string)
    ensures k in Keys(d) ==> Keys(Put(d, k, v)) == Keys(d)
    ensures k !in Keys(d) ==> Keys(Put(d, k, v)) == Keys(d) + [k]
  {
    if d == [] {
    } else if d[0].key == k {
      assert Keys(Put(d, k, v)) == [k] + Keys(d[1..]);
      assert Keys(d) == [k] + Keys(d[1..]);
    } else {
      PutKeysOrder(d[1..], k, v);
      assert Keys(Put(d, k, v)) == [d[0].key] + Keys(Put(d[1..], k, v));
      assert Keys(d) == [d[0].key] + Keys(d[1..]);
      assert k in Keys(d) <==> k in Keys(d[1..]);
    }
  }

  lemma {:induction false} DictOfLookup(pairs: seq<Entry>, k: string)
    ensures Lookup(DictOf(pairs), k) == LastMatch(pairs, k)
  {
    if pairs != [] {
      var n := |pairs| - 1;
      PutLookup(DictOf(pairs[..n]), pairs[n].key, pairs[n].value, k);
      DictOfLookup(pairs[..n], k);
    }
  }

  lemma {:induction false} PutHasKeys(d: Record, k: string, v: string)
    ensures forall x :: x in Keys(Put(d, k, v)) <==> x in Keys(d) || x == k
  {
    if d != [] && d[0].key != k {
      PutHasKeys(d[1..], k, v);
      assert Keys(Put(d, k, v)) == [d[0].key] + Keys(Put(d[1..], k, v));
      assert Keys(d) == [d[0].key] + Keys(d[1..]);
    } else if d != [] {
      assert Keys(d) == [d[0].key] + Keys(d[1..]);
      assert Keys(Put(d, k, v)) == [k] + Keys(d[1..]);
    }
  }

  lemma {:induction false} DictOfKeys(pairs: seq<Entry>)
    ensures DistinctKeys(DictOf(pairs))
    ensures forall x :: x in Keys(DictOf(pairs)) <==> x in Keys(pairs)
  {
    DictOfDistinct(pairs);
    DictOfHasKeys(pairs);
  }

  lemma {:induction false} DictOfDistinct(pairs: seq<Entry>)
    ensures DistinctKeys(DictOf(pairs))
  {
    if pairs != [] {
      var n := |pairs| - 1;
      DictOfDistinct(pairs[..n]);
      PutKeys(DictOf(pairs[..n]), pairs[n].key, pairs[n].value);
    }
  }

  lemma {:induction false} DictOfHasKeys(pairs: seq<Entry>)
    ensures forall x :: x in Keys(DictOf(pairs)) <==> x in Keys(pairs)
  {
    if pairs != [] {
      var n := |pairs| - 1;
      DictOfHasKeys(pairs[..n]);
      PutHasKeys(DictOf(pairs[..n]), pairs[n].key, pairs[n].value);
      assert Keys(pairs) == Keys(pairs[..n]) + [pairs[n].key];
    }
  }

  lemma {:induction false} DistinctDictOf(pairs: seq<Entry>)
    requires DistinctKeys(pairs)
    ensures DictOf(pairs) == pairs
  {
    if pairs != [] {
      var n := |pairs| - 1;
      DistinctDictOf(pairs[..n]);
      NotInKeys(pairs[..n], pairs[n].key);
      PutAbsent(pairs[..n], pairs[n].key, pairs[n].value);
      assert pairs[..n] + [pairs[n]] == pairs;
    }
  }

  lemma {:induction false} NotInKeys(d: Record, k: string)
    requires forall i :: 0 <= i < |d| ==> d[i].key != k
    ensures k !in Keys(d)
  {
  }

  lemma {:induction false} PutAbsent(d: Record, k: string, v: string)
    requires k !in Keys(d)
    ensures Put(d, k, v) == d + [Entry(k, v)]
  {
    if d != [] {
      assert k in Keys(d[1..]) ==> k in Keys(d);
      PutAbsent(d[1..], k, v);
    }
  }

  // ---------------------------------------------------------------------
  // What `dict(zip(headers, row))` holds

  /**
    The record of a row has one entry per distinct column name among the
    first min(|headers|, |row|) headers, no name twice, and the value under
    each name is the field of the LAST column carrying it.
   */
  lemma RowDictMeaning(headers: seq<string>, row: seq<string>, k: string)
    ensures DistinctKeys(RowDict(headers, row))
    ensures k in Keys(RowDict(headers, row)) <==> k in headers[..Min(|headers|, |row|)]
    ensures Lookup(RowDict(headers, row), k) == LastMatch(Zip(headers, row), k)
    ensures |RowDict(headers, row)| <= Min(|headers|, |row|)
  {
    var z := Zip(headers, row);
    DictOfKeys(z);
    assert Keys(z) == headers[..Min(|headers|, |row|)];
    DictOfLookup(z, k);
    DictOfLength(z);
  }

  lemma {:induction false} DictOfLength(pairs: seq<Entry>)
    ensures |DictOf(pairs)| <= |pairs|
  {
    if pairs != [] {
      var n := |pairs| - 1;
      DictOfLength(pairs[..n]);
      DictOfKeys(pairs[..n]);
      PutKeys(DictOf(pairs[..n]), pairs[n].key, pairs[n].value);
    }
  }

  /** With distinct headers the record is exactly the zipped pairs, in header order. */
  lemma RowDictDistinctHeaders(headers: seq<string>, row: seq<string>)
    requires forall i, j :: 0 <= i < j < |headers| ==> headers[i] != headers[j]
    ensures RowDict(headers, row) == Zip(headers, row)
  {
    DistinctDictOf(Zip(headers, row));
  }
}
