/**
  The hash cross-check at the end of `loadRunData`: for every haystack size
  the first complete record fixes the expected fingerprint (its result
  hashes, in the order the terms were searched); every later complete record
  of that size with another fingerprint is reported, and never replaces it.
*/
module CrossCheck {
  import opened Wrappers
  import opened Records

  type Hashes = seq<Option<string>>

  /** A value of the `hashes` dict: (fingerprint, fzf_type). */
  datatype Entry = Entry(fingerprint: Hashes, fzfType: Option<string>)

  /** The message printed on a mismatch: the size, the stored entry, the new one. */
  datatype Warning = Mismatch(nrlines: Option<int>, expected: Entry, found: Entry)

  /** The `hashes` dict and the warnings printed so far. */
  datatype State = State(hashes: map<Option<int>, Entry>, warnings: seq<Warning>)

  function EntryOf(r: RunRecord): Entry {
    Entry(Fingerprint(r.searches), r.fzfType)
  }

  /** One pass of the loop body. */
  function Step(st: State, r: RunRecord): State {
    if r.aborted then st
    else if r.nrlines in st.hashes then
      if st.hashes[r.nrlines].fingerprint != Fingerprint(r.searches) then
        st.(warnings := st.warnings + [Mismatch(r.nrlines, st.hashes[r.nrlines], EntryOf(r))])
      else st
    else st.(hashes := st.hashes[r.nrlines := EntryOf(r)])
  }

  /** The loop over all records, in order. */
  function Check(runs: seq<RunRecord>): State {
    if |runs| == 0 then State(map[], [])
    else Step(Check(runs[..|runs| - 1]), runs[|runs| - 1])
  }

  /** Index of the first complete record of size `k` (|runs| if there is none). */
  function FirstOf(runs: seq<RunRecord>, k: Option<int>): (i: nat)
    ensures i <= |runs|
    ensures i < |runs| ==> !runs[i].aborted && runs[i].nrlines == k
    ensures forall j :: 0 <= j < i ==> runs[j].aborted || runs[j].nrlines != k
  {
    if |runs| == 0 then 0
    else if !runs[0].aborted && runs[0].nrlines == k then 0
    else 1 + FirstOf(runs[1..], k)
  }

  lemma FirstOfPrefix(runs: seq<RunRecord>, n: nat, k: Option<int>)
    requires n <= |runs|
    ensures FirstOf(runs[..n], k) < n ==> FirstOf(runs, k) == FirstOf(runs[..n], k)
    ensures FirstOf(runs[..n], k) == n ==> FirstOf(runs, k) >= n
  {
    var i, f := FirstOf(runs[..n], k), FirstOf(runs, k);
    assert i < n ==> runs[..n][i] == runs[i];
    assert f < n ==> runs[..n][f] == runs[f];
  }

  /** Record j is complete and disagrees with the first record of its size. */
  predicate Diverges(runs: seq<RunRecord>, j: nat)
    requires j < |runs|
  {
    var f := FirstOf(runs, runs[j].nrlines);
    !runs[j].aborted && f < j && runs[f].aborted == false
    && Fingerprint(runs[f].searches) != Fingerprint(runs[j].searches)
  }

  function WarningAt(runs: seq<RunRecord>, j: nat): Warning
    requires j < |runs|
  {
    var f := FirstOf(runs, runs[j].nrlines);
    Mismatch(runs[j].nrlines, if f < |runs| then EntryOf(runs[f]) else EntryOf(runs[j]), EntryOf(runs[j]))
  }

  /** The warnings for records 0 .. n-1, in order, read off `FirstOf` directly. */
  function Divergences(runs: seq<RunRecord>, n: nat): seq<Warning>
    requires n <= |runs|
  {
    if n == 0 then []
    else Divergences(runs, n - 1) + (if Diverges(runs, n - 1) then [WarningAt(runs, n - 1)] else [])
  }

  /** The stored entry for each size is that of the first complete record of
      that size, and there is one exactly for the sizes of complete records. */
  lemma {:induction false} CheckFirstWins(runs: seq<RunRecord>)
    ensures forall k :: k in Check(runs).hashes <==> FirstOf(runs, k) < |runs|
    ensures forall k :: k in Check(runs).hashes ==>
      Check(runs).hashes[k] == EntryOf(runs[FirstOf(runs, k)])
  {
    if |runs| > 0 {
      var n := |runs| - 1;
      var prefix, last := runs[..n], runs[n];
      assert runs[..|runs| - 1] == prefix;
      CheckFirstWins(prefix);
      var before, after := Check(prefix), Check(runs);
      assert after == Step(before, last);
      forall k
        ensures k in after.hashes <==> FirstOf(runs, k) < |runs|
        ensures k in after.hashes ==> after.hashes[k] == EntryOf(runs[FirstOf(runs, k)])
      {
        FirstOfPrefix(runs, n, k);
        var p := FirstOf(prefix, k);
        if p < n {
          assert prefix[p] == runs[p];
        }
      }
    }
  }

  lemma {:induction false} DivergencesPrefix(runs: seq<RunRecord>, n: nat)
    requires n <= |runs|
    ensures Divergences(runs[..n], n) == Divergences(runs, n)
  {
    if n > 0 {
      DivergencesPrefix(runs, n - 1);
      DivergencesPrefixAgain(runs, n, n - 1);
      var j := n - 1;
      FirstOfPrefix(runs, n, runs[j].nrlines);
      assert runs[..n][j] == runs[j];
    }
  }

  lemma {:induction false} DivergencesPrefixAgain(runs: seq<RunRecord>, n: nat, m: nat)
    requires m <= n <= |runs|
    ensures Divergences(runs[..n], m) == Divergences(runs[..m], m)
    decreases m
  {
    if m > 0 {
      DivergencesPrefixAgain(runs, n, m - 1);
      DivergencesPrefixAgain(runs, m, m - 1);
      var j := m - 1;
      assert runs[..n][..m] == runs[..m];
      FirstOfPrefix(runs[..n], m, runs[j].nrlines);
      assert runs[..n][j] == runs[..m][j] == runs[j];
    }
  }

  /** The printed warnings are exactly one per record that disagrees with the
      first record of its size, in record order. */
  lemma {:induction false} CheckWarnings(runs: seq<RunRecord>)
    ensures Check(runs).warnings == Divergences(runs, |runs|)
  {
    if |runs| > 0 {
      var n := |runs| - 1;
      var prefix := runs[..n];
      assert runs[..|runs| - 1] == prefix;
      CheckWarnings(prefix);
      DivergencesPrefix(runs, n);
      StepWarnings(runs);
    }
  }

  /** The last record adds a warning exactly when it diverges. */
  lemma StepWarnings(runs: seq<RunRecord>)
    requires |runs| > 0
    ensures var n := |runs| - 1;
      Step(Check(runs[..n]), runs[n]).warnings
      == Check(runs[..n]).warnings + (if Diverges(runs, n) then [WarningAt(runs, n)] else [])
  {
    var n := |runs| - 1;
    var prefix, last := runs[..n], runs[n];
    CheckFirstWins(prefix);
    FirstOfPrefix(runs, n, last.nrlines);
  }

  /** The complete records, in order. */
  function CompleteOnly(runs: seq<RunRecord>): (r: seq<RunRecord>)
    ensures forall i :: 0 <= i < |r| ==> !r[i].aborted
  {
    if |runs| == 0 then []
    else CompleteOnly(runs[..|runs| - 1]) + (if runs[|runs| - 1].aborted then [] else [runs[|runs| - 1]])
  }

  /** Aborted records play no part in the cross-check. */
  lemma {:induction false} CheckIgnoresAborted(runs: seq<RunRecord>)
    ensures Check(CompleteOnly(runs)) == Check(runs)
  {
    if |runs| > 0 {
      var n := |runs| - 1;
      CheckIgnoresAborted(runs[..n]);
      assert runs[..|runs| - 1] == runs[..n];
      var c := CompleteOnly(runs);
      if !runs[n].aborted {
        assert c == CompleteOnly(runs[..n]) + [runs[n]];
        assert c[..|c| - 1] == CompleteOnly(runs[..n]);
      } else {
        assert c == CompleteOnly(runs[..n]);
      }
    }
  }

  /** The loop of `loadRunData` that fills `hashes`. */
  method CrossCheck(runs: seq<RunRecord>) returns (st: State)
    ensures st == Check(runs)
  {
    var hashes: map<Option<int>, Entry> := map[];
    var warnings: seq<Warning> := [];
    for i := 0 to |runs|
      invariant State(hashes, warnings) == Check(runs[..i])
    {
      assert runs[..i + 1][..i] == runs[..i];
      var r := runs[i];
      if r.aborted {
        continue;
      }
      var key := r.nrlines;
      var mine := Fingerprint(r.searches);
      if key in hashes {
        if hashes[key].fingerprint != mine {
          warnings := warnings + [Mismatch(key, hashes[key], Entry(mine, r.fzfType))];
        }
      } else {
        hashes := hashes[key := Entry(mine, r.fzfType)];
      }
    }
    assert runs[..|runs|] == runs;
    st := State(hashes, warnings);
  }
}
