/**
  The values the scanner produces: a Python dict kept in insertion order for
  the per-term search results, the run record (`RunData`), the outcome of one
  constructor call, and the Python exceptions nothing catches.
*/
module Records {
  import opened Wrappers

  /** The uncaught Python exceptions that end the whole report. */
  datatype PyError = IndexError | AssertionError | ValueError | KeyError(key: string)

  /** One value of `search_times_ms_nr_results`:
      (search time, secondary "+++ filename" time, result hash, number of results). */
  datatype SearchEntry = SearchEntry(
    searchTimeMs: int,
    goSearchTimeMs: Option<int>,
    hash: Option<string>,
    nrResults: int)

  /** A `dict[str, SearchEntry]`: its items in insertion order. */
  type SearchTable = seq<(string, SearchEntry)>

  function Keys(t: SearchTable): (ks: seq<string>)
    ensures |ks| == |t| && forall i :: 0 <= i < |t| ==> ks[i] == t[i].0
  {
    seq(|t|, i requires 0 <= i < |t| => t[i].0)
  }

  predicate HasKey(t: SearchTable, k: string) {
    k in Keys(t)
  }

  predicate DistinctKeys(t: SearchTable) {
    forall i, j :: 0 <= i < j < |t| ==> t[i].0 != t[j].0
  }

  /** Position of the first occurrence of `k` in `ks`. */
  function Position(ks: seq<string>, k: string): (r: Option<nat>)
    ensures r.None? <==> k !in ks
    ensures r.Some? ==> r.value < |ks| && ks[r.value] == k && k !in ks[..r.value]
  {
    if |ks| == 0 then None
    else if ks[0] == k then Some(0)
    else match Position(ks[1..], k)
      case None => None
      case Some(i) => assert ks[..i + 1] == [ks[0]] + ks[1..][..i]; Some(i + 1)
  }

  lemma PositionAppend(ks: seq<string>, k: string, k': string)
    requires k !in ks
    ensures Position(ks + [k], k') == if k' == k then Some(|ks|) else Position(ks, k')
  {
    var ks' := ks + [k];
    assert ks'[..|ks|] == ks;
    if k' in ks {
      var j := Position(ks, k').value;
      assert ks'[j] == k';
      var i := Position(ks', k').value;
    }
  }

  /** `d.get(k)`. */
  function Lookup(t: SearchTable, k: string): (r: Option<SearchEntry>)
    ensures r.Some? <==> HasKey(t, k)
  {
    match Position(Keys(t), k)
    case None => None
    case Some(i) => Some(t[i].1)
  }

  /** `d[k] = e`: an existing key keeps its position and takes the new value,
      a new key goes to the end. */
  function Insert(t: SearchTable, k: string, e: SearchEntry): (r: SearchTable)
    ensures Lookup(r, k) == Some(e)
    ensures forall k' :: k' != k ==> Lookup(r, k') == Lookup(t, k')
    ensures HasKey(t, k) ==> Keys(r) == Keys(t)
    ensures !HasKey(t, k) ==> r == t + [(k, e)]
    ensures DistinctKeys(t) ==> DistinctKeys(r)
  {
    match Position(Keys(t), k)
    case Some(i) =>
      var r := t[i := (k, e)];
      assert Keys(r) == Keys(t);
      r
    case None =>
      var r := t + [(k, e)];
      assert Keys(r) == Keys(t) + [k];
      forall k' ensures Position(Keys(r), k') == if k' == k then Some(|t|) else Position(Keys(t), k') {
        PositionAppend(Keys(t), k, k');
      }
      r
  }

  /** `k` is the key inserted last. */
  predicate LastKeyIs(t: SearchTable, k: string) {
    |t| > 0 && t[|t| - 1].0 == k
  }

  /** The values' hashes, in the dict's insertion order. */
  function Fingerprint(t: SearchTable): (fp: seq<Option<string>>)
    ensures |fp| == |t| && forall i :: 0 <= i < |t| ==> fp[i] == t[i].1.hash
  {
    seq(|t|, i requires 0 <= i < |t| => t[i].1.hash)
  }

  const HelloWorld: string := "hello world"

  /** A `RunData` object. Fields the constructor had not reached when it gave
      up keep the class default `None`; `browser` is never set by the 08/16
      parser and is set (to True or False) by the 08/27 one. */
  datatype RunRecord = RunRecord(
    fzfType: Option<string>,
    browser: Option<bool>,
    nrlines: Option<int>,
    loadTimeMs: Option<int>,
    initTimeMs: Option<int>,
    memoryMiB: Option<real>,
    searches: SearchTable,
    aborted: bool)

  /** The object as `__init__` leaves it before the first line is read. */
  const Fresh: RunRecord := RunRecord(None, None, None, None, None, None, [], false)

  /** What the constructor promises of a record it returns normally. */
  predicate Complete(r: RunRecord) {
    && !r.aborted
    && r.fzfType.Some? && r.nrlines.Some? && r.loadTimeMs.Some? && r.initTimeMs.Some?
    && HasKey(r.searches, HelloWorld) && LastKeyIs(r.searches, HelloWorld)
    && DistinctKeys(r.searches)
    && (r.memoryMiB.None? <==> r.browser == Some(true))
  }

  /** One call of the `RunData(lines)` constructor: it returns a record,
      raises `RunDataNoMatchException` carrying the partial record,
      raises `RunDataOutOfLinesException`, or raises an exception nothing catches. */
  datatype Outcome =
    | Parsed(rec: RunRecord)
    | Aborted(partial: RunRecord)
    | OutOfLines
    | Fatal(err: PyError)
}
