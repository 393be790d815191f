/**
  `markdown_table` and `LOG2_MAP`: the averaged table rendered as a
  markdown table with one column per label and one row per haystack size.
  The numeric rendering of a present cell (`%.2f (%.1f)`) is the parameter
  `fmt`, applied to the total and to the total scaled by the multiplier and
  divided by the size.
*/
module Report {
  import opened Wrappers
  import opened PyStr
  import opened Records
  import opened Aggregate

  const Limit: nat := 40

  /** `LOG2_MAP[n]`, looked up among the exponents from `k` on; None is the KeyError. */
  function Log2From(n: int, k: nat): (r: Option<nat>)
    decreases Limit - k
    ensures r.Some? ==> k <= r.value < Limit && Pow2(r.value) == n
    ensures r.None? ==> forall j :: k <= j < Limit ==> Pow2(j) != n
  {
    if k >= Limit then None
    else if Pow2(k) == n then Some(k)
    else Log2From(n, k + 1)
  }

  /** `LOG2_MAP = {2**i: i for i in range(40)}`, as a lookup. */
  function Log2(n: int): (r: Option<nat>)
    ensures r.Some? ==> r.value < Limit && Pow2(r.value) == n
    ensures r.None? <==> forall j :: 0 <= j < Limit ==> Pow2(j) != n
  {
    Log2From(n, 0)
  }

  lemma {:induction false} Pow2Increasing(j: nat, k: nat)
    requires j < k
    ensures Pow2(j) < Pow2(k)
  {
    if j < k - 1 {
      Pow2Increasing(j, k - 1);
    }
  }

  lemma {:induction false} Log2FromPow2(k: nat, j: nat)
    requires j <= k < Limit
    ensures Log2From(Pow2(k), j) == Some(k)
    decreases k - j
  {
    if j < k {
      Pow2Increasing(j, k);
      Log2FromPow2(k, j + 1);
    }
  }

  /** The keys of LOG2_MAP are exactly the powers 2^0 .. 2^39, each mapped to its exponent. */
  lemma Log2Exact(n: int, k: nat)
    ensures Log2(n) == Some(k) <==> k < Limit && n == Pow2(k)
  {
    if k < Limit && n == Pow2(k) {
      Log2FromPow2(k, 0);
    }
  }

  /** `np.sum(cell)`: NaN as soon as one entry is NaN. */
  function Total(c: Cell): (r: Option<real>)
    ensures r.None? <==> None in c
  {
    if |c| == 0 then Some(0.0)
    else
      assert c == [c[0]] + c[1..];
      match (c[0], Total(c[1..]))
      case (Some(x), Some(t)) => Some(x + t)
      case _ => None
  }

  /** `dfk[nr]`: the first cell stored for size `nr`; None is the KeyError. */
  function CellAt(row: seq<(int, Cell)>, nr: int): (r: Option<Cell>)
    ensures r.None? ==> forall j :: 0 <= j < |row| ==> row[j].0 != nr
    ensures r.Some? ==> exists j :: 0 <= j < |row| && row[j] == (nr, r.value)
  {
    if |row| == 0 then None
    else if row[0].0 == nr then Some(row[0].1)
    else
      var r := CellAt(row[1..], nr);
      assert r.Some? ==> exists j :: 0 <= j < |row[1..]| && row[1..][j] == (nr, r.value);
      r
  }

  /** A present total is rendered by `fmt`; a missing one as `---`. */
  function CellText(total: Option<real>, nr: int, mult: real, fmt: (real, real) -> string): string
    requires nr > 0
  {
    match total
    case None => "---"
    case Some(t) => fmt(t, t * mult / nr as real)
  }

  function SizeLabel(k: nat, nr: int): string {
    "2<sup>" + IntToStr(k) + "</sup> = " + IntToStr(nr)
  }

  function Header(s: Series): (r: seq<string>)
    ensures |r| == |s| + 1 && r[0] == "Haystack size"
    ensures forall i :: 0 <= i < |s| ==> r[i + 1] == s[i].0
  {
    ["Haystack size"] + seq(|s|, i requires 0 <= i < |s| => s[i].0)
  }

  function Separator(w: nat): seq<string> {
    seq(w, _ => "---")
  }

  /** The cells after the first in the row for size `nr`, one per label in order. */
  function RowCells(s: Series, nr: int, mult: real, fmt: (real, real) -> string): (r: Result<seq<string>, PyError>)
    requires nr > 0
    ensures r.Success? ==> |r.value| == |s|
    ensures r.Success? <==> forall i :: 0 <= i < |s| ==> CellAt(s[i].1, nr).Some?
    ensures r.Success? ==> forall i :: 0 <= i < |s| ==>
      r.value[i] == CellText(Total(CellAt(s[i].1, nr).value), nr, mult, fmt)
    ensures r.Failure? ==> r.error == KeyError(IntToStr(nr))
  {
    if |s| == 0 then Success([])
    else match CellAt(s[0].1, nr)
      case None => Failure(KeyError(IntToStr(nr)))
      case Some(c) =>
        match RowCells(s[1..], nr, mult, fmt)
        case Failure(e) => Failure(e)
        case Success(more) =>
          assert forall i :: 1 <= i < |s| ==> s[i] == s[1..][i - 1];
          Success([CellText(Total(c), nr, mult, fmt)] + more)
  }

  /** The row for size `nr`, or the KeyError of `LOG2_MAP[nr]` or of `dfk[nr]`. */
  function BodyRow(s: Series, nr: int, mult: real, fmt: (real, real) -> string): Result<seq<string>, PyError> {
    match Log2(nr)
    case None => Failure(KeyError(IntToStr(nr)))
    case Some(k) =>
      match RowCells(s, nr, mult, fmt)
      case Failure(e) => Failure(e)
      case Success(cells) => Success([SizeLabel(k, nr)] + cells)
  }

  /** The rows for the sizes in order; the first failing row ends the call. */
  function BodyRows(s: Series, sizes: seq<int>, mult: real, fmt: (real, real) -> string): (r: Result<seq<seq<string>>, PyError>)
    ensures r.Success? ==> |r.value| == |sizes|
    ensures r.Success? <==> forall j :: 0 <= j < |sizes| ==> BodyRow(s, sizes[j], mult, fmt).Success?
    ensures r.Success? ==> forall j :: 0 <= j < |sizes| ==> r.value[j] == BodyRow(s, sizes[j], mult, fmt).value
  {
    if |sizes| == 0 then Success([])
    else match BodyRow(s, sizes[0], mult, fmt)
      case Failure(e) => Failure(e)
      case Success(row) =>
        match BodyRows(s, sizes[1..], mult, fmt)
        case Failure(e) => Failure(e)
        case Success(more) =>
          assert forall j :: 1 <= j < |sizes| ==> sizes[j] == sizes[1..][j - 1];
          Success([row] + more)
  }

  /** The keys of a series' inner dict, in order. */
  function SizesOf(row: seq<(int, Cell)>): (r: seq<int>)
    ensures |r| == |row| && forall j :: 0 <= j < |row| ==> r[j] == row[j].0
  {
    seq(|row|, j requires 0 <= j < |row| => row[j].0)
  }

  /** The table as lines of cells: header, separator, then one row per size
      of the first series (`list(data.values())[0]`, an IndexError when there
      is no series). */
  function Grid(s: Series, mult: real, fmt: (real, real) -> string): (r: Result<seq<seq<string>>, PyError>)
    ensures |s| == 0 ==> r == Failure(IndexError)
    ensures r.Success? ==> |s| > 0 && |r.value| == |s[0].1| + 2
    ensures r.Success? ==> r.value[0] == Header(s) && r.value[1] == Separator(|s| + 1)
  {
    if |s| == 0 then Failure(IndexError)
    else match BodyRows(s, SizesOf(s[0].1), mult, fmt)
      case Failure(e) => Failure(e)
      case Success(rows) => Success([Header(s), Separator(|s| + 1)] + rows)
  }

  function JoinCells(g: seq<seq<string>>): (r: seq<string>)
    ensures |r| == |g| && forall i :: 0 <= i < |g| ==> r[i] == Join("|", g[i])
  {
    seq(|g|, i requires 0 <= i < |g| => Join("|", g[i]))
  }

  /** `markdown_table(data, large_small_multiplier)` */
  function MarkdownTable(s: Series, mult: real, fmt: (real, real) -> string): Result<string, PyError> {
    match Grid(s, mult, fmt)
    case Failure(e) => Failure(e)
    case Success(g) => Success(Join("\n", JoinCells(g)))
  }

  /** The body row for the j-th size of the first series: its first cell
      names the size as a power of two, then one cell per label, read from
      that label's own cell for the same size. */
  lemma GridRow(s: Series, mult: real, fmt: (real, real) -> string, j: nat)
    requires Grid(s, mult, fmt).Success? && j < |s[0].1|
    ensures var nr, row := s[0].1[j].0, Grid(s, mult, fmt).value[j + 2];
      && Log2(nr).Some? && nr == Pow2(Log2(nr).value)
      && |row| == |s| + 1 && row[0] == SizeLabel(Log2(nr).value, nr)
      && forall i :: 0 <= i < |s| ==>
           (CellAt(s[i].1, nr).Some? && row[i + 1] == CellText(Total(CellAt(s[i].1, nr).value), nr, mult, fmt))
  {
    var sizes := SizesOf(s[0].1);
    assert BodyRow(s, sizes[j], mult, fmt).Success?;
  }

  /** The text splits back into its lines and each line into its cells, as
      long as no cell holds `|` or a newline. */
  lemma MarkdownTableCells(s: Series, mult: real, fmt: (real, real) -> string)
    requires Grid(s, mult, fmt).Success?
    requires var g := Grid(s, mult, fmt).value;
      forall i, c :: 0 <= i < |g| && 0 <= c < |g[i]| ==> '|' !in g[i][c] && '\n' !in g[i][c]
    ensures var g := Grid(s, mult, fmt).value;
      && SplitOn(MarkdownTable(s, mult, fmt).value, '\n') == JoinCells(g)
      && forall i :: 0 <= i < |g| ==> SplitOn(JoinCells(g)[i], '|') == g[i]
  {
    var g := Grid(s, mult, fmt).value;
    var lines := JoinCells(g);
    forall i | 0 <= i < |g| ensures '\n' !in lines[i] && SplitOn(lines[i], '|') == g[i] {
      JoinAvoids("|", g[i], '\n');
      assert |g[i]| > 0 by {
        if i >= 2 {
          GridRow(s, mult, fmt, i - 2);
        }
      }
      SplitOnJoin('|', g[i]);
    }
    SplitOnJoin('\n', lines);
  }

  /** In a row of the averaged table, looking up the j-th size finds the j-th cell. */
  lemma CellAtRow(runs: seq<RunRecord>, getter: RunRecord -> seq<real>,
                  labels: seq<string>, sizes: seq<int>, n: nat, i: nat, j: nat)
    requires LengthsOk(runs, getter, labels, sizes, n) && NoDups(sizes)
    requires i < |labels| && j < |sizes|
    ensures CellAt(Row(runs, getter, labels, sizes, n, i), sizes[j])
         == Some(CellOf(runs, getter, labels, sizes, n, i, j))
  {
    var row := Row(runs, getter, labels, sizes, n, i);
    var r := CellAt(row, sizes[j]);
    assert row[j].0 == sizes[j];
    if r.Some? {
      var j' :| 0 <= j' < |row| && row[j'] == (sizes[j], r.value);
      assert sizes[j'] == sizes[j];
    }
  }

  /** The table rendered from the averaged data: a row per size, and in
      it, for each label, the rendering of that slot's total, which is
      missing (`---`) exactly when no complete record of that label and size
      was parsed. Needs at least one label, a non-empty vector and exponents
      below 40 (beyond them `LOG2_MAP` has no key). */
  lemma TableOfAggregate(runs: seq<RunRecord>, exps: seq<nat>, getter: RunRecord -> seq<real>,
                         toShow: seq<Option<string>>, n: nat, mult: real, fmt: (real, real) -> string,
                         i: nat, j: nat)
    requires Aggregated(runs, exps, getter, toShow, n).Success?
    requires n > 0 && |Labels(toShow)| > 0
    requires forall t :: 0 <= t < |exps| ==> exps[t] < Limit
    requires i < |Labels(toShow)| && j < |Sizes(exps)|
    ensures var series := Aggregated(runs, exps, getter, toShow, n).value;
      var g := Grid(series, mult, fmt);
      && i < |series| && j < |series[i].1|
      && g.Success? && |g.value| == |Sizes(exps)| + 2 && i + 1 < |g.value[j + 2]|
      && Log2(Sizes(exps)[j]).Some?
      && var cell := series[i].1[j].1;
      && g.value[j + 2][i + 1] == CellText(Total(cell), Sizes(exps)[j], mult, fmt)
      && (Total(cell).None? <==> forall x :: x in runs ==> !Contributes(x, Labels(toShow)[i], Sizes(exps)[j]))
  {
    var series := Aggregated(runs, exps, getter, toShow, n).value;
    GridOfAggregate(runs, exps, getter, toShow, n, mult, fmt);
    AggregateCell(runs, exps, getter, toShow, n, 0, j);
    AggregateCell(runs, exps, getter, toShow, n, i, j);
    GridRow(series, mult, fmt, j);
  }

  /** Cell (i, j) of an aggregated table is the one `CellAt` finds for size j,
      and its total is missing exactly when no record contributes to it. */
  lemma AggregateCell(runs: seq<RunRecord>, exps: seq<nat>, getter: RunRecord -> seq<real>,
                      toShow: seq<Option<string>>, n: nat, i: nat, j: nat)
    requires Aggregated(runs, exps, getter, toShow, n).Success?
    requires n > 0 && i < |Labels(toShow)| && j < |Sizes(exps)|
    ensures var series := Aggregated(runs, exps, getter, toShow, n).value;
      && i < |series| && j < |series[i].1| && series[i].1[j].0 == Sizes(exps)[j]
      && CellAt(series[i].1, Sizes(exps)[j]) == Some(series[i].1[j].1)
      && (Total(series[i].1[j].1).None? <==>
          forall x :: x in runs ==> !Contributes(x, Labels(toShow)[i], Sizes(exps)[j]))
  {
    var labels, sizes := Labels(toShow), Sizes(exps);
    var series := Aggregated(runs, exps, getter, toShow, n).value;
    assert series[i] == (labels[i], Row(runs, getter, labels, sizes, n, i));
    CellAtRow(runs, getter, labels, sizes, n, i, j);
    var cell := series[i].1[j].1;
    assert cell == CellOf(runs, getter, labels, sizes, n, i, j);
    forall k | 0 <= k < n
      ensures cell[k].None? <==> forall x :: x in runs ==> !Contributes(x, labels[i], sizes[j])
    {
      CellMissing(runs, exps, getter, toShow, n, i, j, k);
    }
    assert cell[0].None? ==> None in cell;
  }

  /** With exponents below 40 every size of an aggregated table has its
      `LOG2_MAP` entry and every label a cell for it, so the grid exists. */
  lemma GridOfAggregate(runs: seq<RunRecord>, exps: seq<nat>, getter: RunRecord -> seq<real>,
                        toShow: seq<Option<string>>, n: nat, mult: real, fmt: (real, real) -> string)
    requires Aggregated(runs, exps, getter, toShow, n).Success?
    requires |Labels(toShow)| > 0
    requires forall t :: 0 <= t < |exps| ==> exps[t] < Limit
    ensures var series := Aggregated(runs, exps, getter, toShow, n).value;
      && |series| == |Labels(toShow)|
      && SizesOf(series[0].1) == Sizes(exps)
      && Grid(series, mult, fmt).Success?
  {
    var labels, sizes := Labels(toShow), Sizes(exps);
    var series := Aggregated(runs, exps, getter, toShow, n).value;
    assert |series| == |labels|;
    assert forall i' :: 0 <= i' < |labels| ==> series[i'] == (labels[i'], Row(runs, getter, labels, sizes, n, i'));
    assert SizesOf(series[0].1) == sizes;
    forall j' | 0 <= j' < |sizes| ensures BodyRow(series, sizes[j'], mult, fmt).Success? {
      assert sizes[j'] in Powers(exps);
      var t :| 0 <= t < |exps| && Powers(exps)[t] == sizes[j'];
      Log2Exact(sizes[j'], exps[t]);
      forall i' | 0 <= i' < |series| ensures CellAt(series[i'].1, sizes[j']).Some? {
        CellAtRow(runs, getter, labels, sizes, n, i', j');
      }
    }
  }
}
