/**
  The grouping and averaging part of `do_create_table_and_plot`: the run
  records are sorted into one bucket per (label, haystack size) slot, every
  contributed vector must have the fixed length, and each bucket becomes the
  element-wise mean of its vectors, or an all-missing vector when it is
  empty. NaN is `None`; numbers are exact reals.
*/
module Aggregate {
  import opened Wrappers
  import opened Records

  function Pow2(e: nat): (r: nat)
    ensures r >= 1
  {
    if e == 0 then 1 else 2 * Pow2(e - 1)
  }

  predicate NoDups<T(==)>(xs: seq<T>) {
    forall i, j :: 0 <= i < j < |xs| ==> xs[i] != xs[j]
  }

  /** The keys of a dict built from `xs`: each value once, in order of first occurrence. */
  function Dedup<T(==,!new)>(xs: seq<T>): (r: seq<T>)
    ensures NoDups(r)
    ensures forall x :: x in r <==> x in xs
    // a value comes before another exactly when it occurs first in `xs` earlier
    ensures forall i, j :: 0 <= i < j < |r| ==> Find(xs, r[i]) < Find(xs, r[j])
  {
    if |xs| == 0 then []
    else
      var n := |xs| - 1;
      var d := Dedup(xs[..n]);
      var x := xs[n];
      assert forall y :: y in xs <==> y in xs[..n] || y == x;
      FindPrefixAll(xs, n);
      if x in d then d
      else
        assert Find(xs, x) == n by { assert x !in xs[..n]; }
        d + [x]
  }

  /** Index of the first occurrence of `x` in a sequence that holds it. */
  function Find<T(==)>(xs: seq<T>, x: T): (i: nat)
    requires x in xs
    ensures i < |xs| && xs[i] == x
    ensures forall k :: 0 <= k < i ==> xs[k] != x
  {
    if xs[0] == x then 0 else 1 + Find(xs[1..], x)
  }

  /** A value already in `xs[..n]` is found where it is found in `xs[..n]`. */
  lemma FindPrefixAll<T>(xs: seq<T>, n: nat)
    requires n <= |xs|
    ensures forall y :: y in xs[..n] ==> y in xs && Find(xs, y) == Find(xs[..n], y)
  {
    forall y | y in xs[..n] ensures y in xs && Find(xs, y) == Find(xs[..n], y) {
      var p := Find(xs[..n], y);
      assert xs[p] == y;
      var q := Find(xs, y);
      assert q <= p;
      assert xs[..n][q] == y;
    }
  }

  /** The non-None entries of `to_show`. */
  function Present(toShow: seq<Option<string>>): (r: seq<string>)
    ensures forall l :: l in r <==> Some(l) in toShow
    ensures |r| <= |toShow|
  {
    if |toShow| == 0 then []
    else
      var rest := Present(toShow[1..]);
      assert forall o :: o in toShow <==> o == toShow[0] || o in toShow[1..];
      match toShow[0]
      case None => rest
      case Some(l) => [l] + rest
  }

  /** Keeping the present entries commutes with concatenation, so they
      stay in the order of `to_show`. */
  lemma {:induction false} PresentAppend(a: seq<Option<string>>, b: seq<Option<string>>)
    ensures Present(a + b) == Present(a) + Present(b)
  {
    if |a| > 0 {
      assert (a + b)[1..] == a[1..] + b;
      PresentAppend(a[1..], b);
    } else {
      assert a + b == b;
    }
  }

  lemma PresentOne(o: Option<string>)
    ensures Present([o]) == if o.Some? then [o.value] else []
  {
    assert [o][1..] == [];
  }

  /** How many entries of `xs` are present. */
  function CountSome(xs: seq<Option<string>>): nat {
    if |xs| == 0 then 0
    else CountSome(xs[..|xs| - 1]) + (if xs[|xs| - 1].Some? then 1 else 0)
  }

  /** Keeping the present entries keeps one per present entry. */
  lemma {:induction false} PresentLength(xs: seq<Option<string>>)
    ensures |Present(xs)| == CountSome(xs)
    decreases |xs|
  {
    if |xs| > 0 {
      var n := |xs| - 1;
      assert xs == xs[..n] + [xs[n]];
      PresentAppend(xs[..n], [xs[n]]);
      PresentOne(xs[n]);
      PresentLength(xs[..n]);
    }
  }

  /** The present entry at position `i` of `to_show` is the label at its
      rank among the present entries: the labels keep `to_show`'s order. */
  lemma PresentAt(xs: seq<Option<string>>, i: nat)
    requires i < |xs| && xs[i].Some?
    ensures CountSome(xs[..i]) < |Present(xs)|
    ensures Present(xs)[CountSome(xs[..i])] == xs[i].value
  {
    assert xs == xs[..i] + ([xs[i]] + xs[i + 1..]);
    PresentAppend(xs[..i], [xs[i]] + xs[i + 1..]);
    PresentAppend([xs[i]], xs[i + 1..]);
    PresentOne(xs[i]);
    PresentLength(xs[..i]);
  }

  /** The outer keys of `data`: one slot per label, `None` making none. */
  function Labels(toShow: seq<Option<string>>): seq<string> {
    Dedup(Present(toShow))
  }

  /** `2**nr for nr in nrlinesexp` */
  function Powers(exps: seq<nat>): (r: seq<int>)
    ensures |r| == |exps| && forall i :: 0 <= i < |exps| ==> r[i] == Pow2(exps[i])
  {
    if |exps| == 0 then [] else [Pow2(exps[0]) as int] + Powers(exps[1..])
  }

  /** The inner keys of `data`. */
  function Sizes(exps: seq<nat>): seq<int> {
    Dedup(Powers(exps))
  }

  /** `fzf_types = {r.fzf_type for r in runDatas}` */
  function FzfTypes(runs: seq<RunRecord>): set<Option<string>> {
    set x | x in runs :: x.fzfType
  }

  /** The first assert: every label shown was parsed at least once (aborted records included). */
  predicate LabelsKnown(runs: seq<RunRecord>, toShow: seq<Option<string>>) {
    forall i :: 0 <= i < |toShow| && toShow[i].Some? ==> toShow[i] in FzfTypes(runs)
  }

  /** The record is not skipped by the collecting loop. */
  predicate Counted(x: RunRecord, labels: seq<string>, sizes: seq<int>) {
    && !x.aborted
    && x.fzfType.Some? && x.fzfType.value in labels
    && x.nrlines.Some? && x.nrlines.value in sizes
  }

  /** The record lands in the slot (label, size). */
  predicate Contributes(x: RunRecord, lbl: string, size: int) {
    !x.aborted && x.fzfType == Some(lbl) && x.nrlines == Some(size)
  }

  /** The second assert, for every record that is collected. */
  predicate LengthsOk(runs: seq<RunRecord>, getter: RunRecord -> seq<real>,
                      labels: seq<string>, sizes: seq<int>, n: nat) {
    forall x :: x in runs && Counted(x, labels, sizes) ==> |getter(x)| == n
  }

  /** `data[lbl][size]` after the collecting loop: the vectors in record order. */
  function Contributions(runs: seq<RunRecord>, getter: RunRecord -> seq<real>,
                         lbl: string, size: int): seq<seq<real>> {
    if |runs| == 0 then []
    else
      var x := runs[|runs| - 1];
      Contributions(runs[..|runs| - 1], getter, lbl, size)
        + (if Contributes(x, lbl, size) then [getter(x)] else [])
  }

  predicate Uniform(vs: seq<seq<real>>, n: nat) {
    forall m :: 0 <= m < |vs| ==> |vs[m]| == n
  }

  /** Sum of column `k`. */
  function ColumnSum(vs: seq<seq<real>>, k: nat): real
    requires forall m :: 0 <= m < |vs| ==> k < |vs[m]|
  {
    if |vs| == 0 then 0.0 else ColumnSum(vs[..|vs| - 1], k) + vs[|vs| - 1][k]
  }

  type Cell = seq<Option<real>>

  /** `np.mean(vs, axis=0)`, or `np.full((n,), np.nan)` for no vectors. */
  function Mean(vs: seq<seq<real>>, n: nat): (r: Cell)
    requires Uniform(vs, n)
    ensures |r| == n
    ensures forall k :: 0 <= k < n ==> (r[k].None? <==> |vs| == 0)
  {
    if |vs| == 0 then seq(n, _ => None)
    else seq(n, k requires 0 <= k < n => Some(ColumnSum(vs, k) / |vs| as real))
  }

  /** The averaged table: labels in order, each with its sizes in order. */
  type Series = seq<(string, seq<(int, Cell)>)>

  lemma {:induction false} ContributionsUniform(runs: seq<RunRecord>, getter: RunRecord -> seq<real>,
                                                labels: seq<string>, sizes: seq<int>, n: nat,
                                                lbl: string, size: int)
    requires LengthsOk(runs, getter, labels, sizes, n) && lbl in labels && size in sizes
    ensures Uniform(Contributions(runs, getter, lbl, size), n)
  {
    if |runs| > 0 {
      var prefix := runs[..|runs| - 1];
      assert forall x :: x in prefix ==> x in runs;
      ContributionsUniform(prefix, getter, labels, sizes, n, lbl, size);
      assert runs[|runs| - 1] in runs;
    }
  }

  function CellOf(runs: seq<RunRecord>, getter: RunRecord -> seq<real>,
                  labels: seq<string>, sizes: seq<int>, n: nat, i: nat, j: nat): (c: Cell)
    requires LengthsOk(runs, getter, labels, sizes, n) && i < |labels| && j < |sizes|
  {
    ContributionsUniform(runs, getter, labels, sizes, n, labels[i], sizes[j]);
    Mean(Contributions(runs, getter, labels[i], sizes[j]), n)
  }

  function Row(runs: seq<RunRecord>, getter: RunRecord -> seq<real>,
               labels: seq<string>, sizes: seq<int>, n: nat, i: nat): seq<(int, Cell)>
    requires LengthsOk(runs, getter, labels, sizes, n) && i < |labels|
  {
    seq(|sizes|, j requires 0 <= j < |sizes| => (sizes[j], CellOf(runs, getter, labels, sizes, n, i, j)))
  }

  /** `data` after both loops of `do_create_table_and_plot`, or the AssertionError. */
  function Aggregated(runs: seq<RunRecord>, exps: seq<nat>, getter: RunRecord -> seq<real>,
                      toShow: seq<Option<string>>, n: nat): (r: Result<Series, PyError>)
    // the AssertionError exactly when an assert fails
    ensures r.Failure? <==>
      !LabelsKnown(runs, toShow) || !LengthsOk(runs, getter, Labels(toShow), Sizes(exps), n)
    ensures r.Failure? ==> r.error == AssertionError
    // one row per label and one cell of length n per size, in order
    ensures r.Success? ==> Shaped(r.value, Labels(toShow), Sizes(exps), n)
  {
    var labels, sizes := Labels(toShow), Sizes(exps);
    if !LabelsKnown(runs, toShow) || !LengthsOk(runs, getter, labels, sizes, n) then Failure(AssertionError)
    else Success(seq(|labels|, i requires 0 <= i < |labels| => (labels[i], Row(runs, getter, labels, sizes, n, i))))
  }

  /** The keys of `data` and the cells' lengths. */
  predicate Shaped(series: Series, labels: seq<string>, sizes: seq<int>, n: nat) {
    && |series| == |labels|
    && forall i :: 0 <= i < |series| ==>
      && series[i].0 == labels[i] && |series[i].1| == |sizes|
      && forall j :: 0 <= j < |sizes| ==> series[i].1[j].0 == sizes[j] && |series[i].1[j].1| == n
  }

  lemma ContributionsNext(runs: seq<RunRecord>, k: nat, getter: RunRecord -> seq<real>, lbl: string, size: int)
    requires k < |runs|
    ensures Contributions(runs[..k + 1], getter, lbl, size)
         == Contributions(runs[..k], getter, lbl, size)
            + (if Contributes(runs[k], lbl, size) then [getter(runs[k])] else [])
  {
    assert runs[..k + 1][..k] == runs[..k];
  }

  /** `data[key][nr].append(...)` over all records; `ok` is false when the
      length assert fails. */
  method Collect(runs: seq<RunRecord>, getter: RunRecord -> seq<real>,
                 labels: seq<string>, sizes: seq<int>, n: nat)
    returns (buckets: seq<seq<seq<seq<real>>>>, ok: bool)
    requires NoDups(labels) && NoDups(sizes)
    ensures ok <==> LengthsOk(runs, getter, labels, sizes, n)
    ensures ok ==> |buckets| == |labels|
    ensures ok ==> forall i :: 0 <= i < |labels| ==> |buckets[i]| == |sizes|
    ensures ok ==> forall i, j :: 0 <= i < |labels| && 0 <= j < |sizes| ==>
      buckets[i][j] == Contributions(runs, getter, labels[i], sizes[j])
  {
    buckets := seq(|labels|, _ => seq(|sizes|, _ => []));
    for k := 0 to |runs|
      invariant |buckets| == |labels|
      invariant forall i :: 0 <= i < |labels| ==> |buckets[i]| == |sizes|
      invariant forall i, j :: 0 <= i < |labels| && 0 <= j < |sizes| ==>
        buckets[i][j] == Contributions(runs[..k], getter, labels[i], sizes[j])
      invariant LengthsOk(runs[..k], getter, labels, sizes, n)
    {
      var x := runs[k];
      assert forall y :: y in runs[..k + 1] <==> y in runs[..k] || y == x;
      if !Counted(x, labels, sizes) {
        forall i, j | 0 <= i < |labels| && 0 <= j < |sizes|
          ensures buckets[i][j] == Contributions(runs[..k + 1], getter, labels[i], sizes[j])
        {
          ContributionsNext(runs, k, getter, labels[i], sizes[j]);
        }
        continue;
      }
      var i, j := Find(labels, x.fzfType.value), Find(sizes, x.nrlines.value);
      var vec := getter(x);
      ghost var old' := buckets;
      buckets := buckets[i := buckets[i][j := buckets[i][j] + [vec]]];
      forall i', j' | 0 <= i' < |labels| && 0 <= j' < |sizes|
        ensures buckets[i'][j'] == Contributions(runs[..k + 1], getter, labels[i'], sizes[j'])
      {
        ContributionsNext(runs, k, getter, labels[i'], sizes[j']);
        assert Contributes(x, labels[i'], sizes[j']) <==> i' == i && j' == j;
      }
      if |vec| != n {
        assert x in runs;
        return buckets, false;
      }
    }
    assert runs[..|runs|] == runs;
    ok := true;
  }

  /** The averaging loop: each bucket replaced by its mean. */
  method Average(runs: seq<RunRecord>, getter: RunRecord -> seq<real>,
                 labels: seq<string>, sizes: seq<int>, n: nat,
                 buckets: seq<seq<seq<seq<real>>>>) returns (series: Series)
    requires LengthsOk(runs, getter, labels, sizes, n)
    requires |buckets| == |labels| && forall i :: 0 <= i < |labels| ==> |buckets[i]| == |sizes|
    requires forall i, j :: 0 <= i < |labels| && 0 <= j < |sizes| ==>
      buckets[i][j] == Contributions(runs, getter, labels[i], sizes[j])
    ensures series == seq(|labels|, i requires 0 <= i < |labels| => (labels[i], Row(runs, getter, labels, sizes, n, i)))
  {
    series := [];
    for i := 0 to |labels|
      invariant |series| == i
      invariant forall i' :: 0 <= i' < i ==> series[i'] == (labels[i'], Row(runs, getter, labels, sizes, n, i'))
    {
      var row := AverageRow(runs, getter, labels, sizes, n, i, buckets[i]);
      series := series + [(labels[i], row)];
    }
  }

  /** The inner loop for one label: `np.mean` of each of its buckets. */
  method AverageRow(runs: seq<RunRecord>, getter: RunRecord -> seq<real>,
                    labels: seq<string>, sizes: seq<int>, n: nat, i: nat,
                    bucketRow: seq<seq<seq<real>>>) returns (row: seq<(int, Cell)>)
    requires LengthsOk(runs, getter, labels, sizes, n) && i < |labels|
    requires |bucketRow| == |sizes|
    requires forall j :: 0 <= j < |sizes| ==> bucketRow[j] == Contributions(runs, getter, labels[i], sizes[j])
    ensures row == Row(runs, getter, labels, sizes, n, i)
  {
    row := [];
    for j := 0 to |sizes|
      invariant |row| == j
      invariant forall j' :: 0 <= j' < j ==> row[j'] == (sizes[j'], CellOf(runs, getter, labels, sizes, n, i, j'))
    {
      ContributionsUniform(runs, getter, labels, sizes, n, labels[i], sizes[j]);
      row := row + [(sizes[j], Mean(bucketRow[j], n))];
    }
  }

  /** The two asserts, the collecting loop and the averaging loop. */
  method CreateTable(runs: seq<RunRecord>, exps: seq<nat>, getter: RunRecord -> seq<real>,
                     toShow: seq<Option<string>>, n: nat) returns (r: Result<Series, PyError>)
    ensures r == Aggregated(runs, exps, getter, toShow, n)
  {
    if !LabelsKnown(runs, toShow) {
      return Failure(AssertionError);
    }
    var labels, sizes := Labels(toShow), Sizes(exps);
    var buckets, ok := Collect(runs, getter, labels, sizes, n);
    if !ok {
      return Failure(AssertionError);
    }
    var series := Average(runs, getter, labels, sizes, n, buckets);
    return Success(series);
  }

  /** A bucket is empty exactly when no record lands in its slot. */
  lemma {:induction false} ContributionsEmpty(runs: seq<RunRecord>, getter: RunRecord -> seq<real>, lbl: string, size: int)
    ensures |Contributions(runs, getter, lbl, size)| == 0 <==> forall x :: x in runs ==> !Contributes(x, lbl, size)
  {
    if |runs| > 0 {
      var prefix := runs[..|runs| - 1];
      ContributionsEmpty(prefix, getter, lbl, size);
      assert forall x :: x in runs <==> x in prefix || x == runs[|runs| - 1];
    }
  }

  predicate ColumnBounded(vs: seq<seq<real>>, k: nat, lo: real, hi: real) {
    forall m :: 0 <= m < |vs| ==> k < |vs[m]| && lo <= vs[m][k] <= hi
  }

  /** A bound on column `k` of every contributing vector holds for every vector in the bucket. */
  lemma {:induction false} ContributionsBounded(runs: seq<RunRecord>, getter: RunRecord -> seq<real>,
                                                lbl: string, size: int, k: nat, lo: real, hi: real)
    requires forall x :: x in runs && Contributes(x, lbl, size) ==> k < |getter(x)| && lo <= getter(x)[k] <= hi
    ensures ColumnBounded(Contributions(runs, getter, lbl, size), k, lo, hi)
  {
    if |runs| > 0 {
      var prefix := runs[..|runs| - 1];
      assert forall x :: x in prefix ==> x in runs;
      ContributionsBounded(prefix, getter, lbl, size, k, lo, hi);
      var last := runs[|runs| - 1];
      assert last in runs;
      var vs, pv := Contributions(runs, getter, lbl, size), Contributions(prefix, getter, lbl, size);
      assert vs == pv + (if Contributes(last, lbl, size) then [getter(last)] else []);
      forall m | 0 <= m < |vs| ensures k < |vs[m]| && lo <= vs[m][k] <= hi {
        if m < |pv| {
          assert vs[m] == pv[m];
        } else {
          assert vs[m] == getter(last);
        }
      }
    }
  }

  lemma {:induction false} ColumnSumBounds(vs: seq<seq<real>>, k: nat, lo: real, hi: real)
    requires ColumnBounded(vs, k, lo, hi)
    ensures |vs| as real * lo <= ColumnSum(vs, k) <= |vs| as real * hi
  {
    if |vs| > 0 {
      var init := vs[..|vs| - 1];
      assert ColumnBounded(init, k, lo, hi) by {
        forall m | 0 <= m < |init| ensures init[m] == vs[m] { }
      }
      ColumnSumBounds(init, k, lo, hi);
      var c := |init| as real;
      assert |vs| as real * lo == c * lo + lo;
      assert |vs| as real * hi == c * hi + hi;
    }
  }

  /** The mean of a column lies between any bounds of its entries. */
  lemma MeanBounds(vs: seq<seq<real>>, n: nat, k: nat, lo: real, hi: real)
    requires Uniform(vs, n) && |vs| > 0 && k < n
    requires ColumnBounded(vs, k, lo, hi)
    ensures Mean(vs, n)[k].Some? && lo <= Mean(vs, n)[k].value <= hi
  {
    ColumnSumBounds(vs, k, lo, hi);
    var c, sum := |vs| as real, ColumnSum(vs, k);
    assert Mean(vs, n)[k] == Some(sum / c);
    QuotientWithin(sum, c, lo, hi);
  }

  /** Copies of one vector average to that vector. */
  lemma {:induction false} MeanOfCopies(vs: seq<seq<real>>, v: seq<real>)
    requires |vs| > 0 && forall m :: 0 <= m < |vs| ==> vs[m] == v
    ensures Uniform(vs, |v|)
    ensures forall k :: 0 <= k < |v| ==> Mean(vs, |v|)[k] == Some(v[k])
  {
    assert Uniform(vs, |v|);
    forall k | 0 <= k < |v| ensures Mean(vs, |v|)[k] == Some(v[k]) {
      ColumnSumOfCopies(vs, v, k);
      var c := |vs| as real;
      var sum := ColumnSum(vs, k);
      assert Mean(vs, |v|)[k] == Some(sum / c);
      ProductOver(sum, c, v[k]);
    }
  }

  lemma ProductOver(sum: real, c: real, x: real)
    requires c > 0.0 && sum == c * x
    ensures sum / c == x
  {
  }

  lemma {:induction false} ColumnSumOfCopies(vs: seq<seq<real>>, v: seq<real>, k: nat)
    requires k < |v| && forall m :: 0 <= m < |vs| ==> vs[m] == v
    ensures ColumnSum(vs, k) == |vs| as real * v[k]
  {
    if |vs| > 0 {
      var init := vs[..|vs| - 1];
      ColumnSumOfCopies(init, v, k);
      assert |vs| as real * v[k] == |init| as real * v[k] + v[k];
    }
  }

  /** Dividing bounds `c * lo <= sum <= c * hi` by a positive `c`. */
  lemma QuotientWithin(sum: real, c: real, lo: real, hi: real)
    requires c > 0.0 && c * lo <= sum <= c * hi
    ensures lo <= sum / c <= hi
  {
    var q := sum / c;
    assert sum == c * q;
    assert c * (q - lo) >= 0.0;
    assert c * (hi - q) >= 0.0;
    PositiveFactor(c, q - lo);
    PositiveFactor(c, hi - q);
  }

  /** A product with a positive factor is non-negative only if the other factor is. */
  lemma PositiveFactor(c: real, x: real)
    requires c > 0.0 && c * x >= 0.0
    ensures x >= 0.0
  {
    assert x == (c * x) / c;
  }

  /** A cell of the table is missing exactly when no complete record of that
      label and size was parsed. */
  lemma CellMissing(runs: seq<RunRecord>, exps: seq<nat>, getter: RunRecord -> seq<real>,
                    toShow: seq<Option<string>>, n: nat, i: nat, j: nat, k: nat)
    requires Aggregated(runs, exps, getter, toShow, n).Success?
    requires i < |Labels(toShow)| && j < |Sizes(exps)| && k < n
    ensures var cell := Aggregated(runs, exps, getter, toShow, n).value[i].1[j].1;
      |cell| == n
      && (cell[k].None? <==> forall x :: x in runs ==> !Contributes(x, Labels(toShow)[i], Sizes(exps)[j]))
  {
    ContributionsEmpty(runs, getter, Labels(toShow)[i], Sizes(exps)[j]);
  }

  /** Each present value of a cell lies between the smallest and the largest
      value its contributing records supply in that column. */
  lemma CellWithin(runs: seq<RunRecord>, exps: seq<nat>, getter: RunRecord -> seq<real>,
                   toShow: seq<Option<string>>, n: nat, i: nat, j: nat, k: nat, lo: real, hi: real)
    requires Aggregated(runs, exps, getter, toShow, n).Success?
    requires i < |Labels(toShow)| && j < |Sizes(exps)| && k < n
    requires forall x :: x in runs && Contributes(x, Labels(toShow)[i], Sizes(exps)[j]) ==>
      k < |getter(x)| && lo <= getter(x)[k] <= hi
    ensures var cell := Aggregated(runs, exps, getter, toShow, n).value[i].1[j].1;
      cell[k].Some? ==> lo <= cell[k].value <= hi
  {
    var labels, sizes := Labels(toShow), Sizes(exps);
    var vs := Contributions(runs, getter, labels[i], sizes[j]);
    ContributionsUniform(runs, getter, labels, sizes, n, labels[i], sizes[j]);
    ContributionsBounded(runs, getter, labels[i], sizes[j], k, lo, hi);
    if |vs| > 0 {
      MeanBounds(vs, n, k, lo, hi);
    }
  }
}
