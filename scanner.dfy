/**
  The scanner of base.py in its own imperative form: a `LineStack` popped
  and pushed like the Python list, and a `RunData` object whose fields are
  filled in one after the other. Every method is proved to end in the state
  (status, record fields, stack) that the pure definition of the same step
  in LogSpec gives, so the properties proved there hold of the methods.
*/
module Scanner {
  import opened Wrappers
  import opened PyStr
  import opened Records
  import opened RunTypes
  import opened LogSpec
  import CrossCheck

  /** The reversed lines of one file; the last element is what `pop()` returns next. */
  class LineStack {
    var lines: seq<string>

    /** `list(reversed(data.splitlines()))` */
    constructor(fileLines: seq<string>)
      ensures lines == Reverse(fileLines)
    {
      lines := Reverse(fileLines);
    }

    /** `lines.pop()`; None is the IndexError of an empty list. */
    method Pop() returns (line: Option<string>)
      modifies this
      ensures old(lines) == [] ==> line.None? && lines == []
      ensures old(lines) != [] ==> line == Some(Top(old(lines))) && lines == Rest(old(lines))
    {
      if |lines| == 0 {
        return None;
      }
      line := Some(lines[|lines| - 1]);
      lines := lines[..|lines| - 1];
    }

    /** `lines.append(line)` */
    method Push(line: string)
      modifies this
      ensures lines == old(lines) + [line]
    {
      lines := lines + [line];
    }

    /** `lines[-1]`; None is the IndexError of an empty list. */
    function Peek(): (line: Option<string>)
      reads this
      ensures line.Some? <==> |lines| > 0
      ensures line.Some? ==> line.value == Top(lines)
    {
      if |lines| == 0 then None else Some(lines[|lines| - 1])
    }
  }

  /** How a call ended: normally, with RunDataNoMatchException, with
      RunDataOutOfLinesException, or with an exception that nothing catches. */
  datatype Status = Returned | NoMatch | RanOut | Raised(err: PyError)

  /** The status, the record's fields and the stack are those of `spec`. */
  ghost predicate Agrees(status: Status, rec: RunRecord, lines: seq<string>, spec: Parse) {
    match spec.0
    case Parsed(r) => status == Returned && rec == r && lines == spec.1
    case Aborted(r) => status == NoMatch && rec == r && lines == spec.1
    case OutOfLines => status == RanOut && lines == spec.1
    case Fatal(e) => status == Raised(e)
  }

  class RunData {
    var fzfType: Option<string>
    var browser: Option<bool>
    var nrlines: Option<int>
    var loadTimeMs: Option<int>
    var initTimeMs: Option<int>
    var memoryMiB: Option<real>
    var searches: SearchTable
    var aborted: bool

    /** The class-level defaults, before `__init__` runs. */
    constructor()
      ensures Snapshot() == Fresh
    {
      fzfType, browser, nrlines := None, None, None;
      loadTimeMs, initTimeMs, memoryMiB := None, None, None;
      searches, aborted := [], false;
    }

    /** The fields as a value. */
    function Snapshot(): RunRecord
      reads this
    {
      RunRecord(fzfType, browser, nrlines, loadTimeMs, initTimeMs, memoryMiB, searches, aborted)
    }

    /** `popuntilstartmatch`: None is RunDataNoMatchException, after which
        `aborted` is set; no other field changes. */
    method PopUntilStartMatch(st: LineStack, start: string) returns (line: Option<string>)
      modifies this, st
      ensures match LogSpec.PopUntilStartMatch(old(st.lines), start)
        case Match(l, rest) => line == Some(l) && st.lines == rest && Snapshot() == old(Snapshot())
        case Stop(rest) =>
          line.None? && st.lines == rest && Snapshot() == old(Snapshot()).(aborted := true)
    {
      ghost var s0 := st.lines;
      while true
        invariant LogSpec.PopUntilStartMatch(st.lines, start) == LogSpec.PopUntilStartMatch(s0, start)
        invariant Snapshot() == old(Snapshot())
        decreases |st.lines|
      {
        ghost var before := st.lines;
        var popped := st.Pop();
        if popped.None? {
          aborted := true;
          return None;
        }
        var l := popped.value;
        if StartsWith(l, start) {
          return Some(l);
        }
        if IsBanner(l) {
          aborted := true;
          st.Push(l);
          assert st.lines == before;
          return None;
        }
      }
    }

    /** `RunData(lines)` on a newly created object. */
    method Parse(v: Variant, st: LineStack) returns (status: Status)
      requires Snapshot() == Fresh
      modifies this, st
      ensures Agrees(status, Snapshot(), st.lines, ParseRun(v, old(st.lines)))
    {
      aborted := false;
      searches := [];
      ghost var s0 := st.lines;
      var found := false;
      while !found
        invariant found ==> SkipToBanner(s0) == Some(st.lines)
        invariant !found ==> SkipToBanner(st.lines) == SkipToBanner(s0)
        invariant Snapshot() == Fresh
        decreases |st.lines|, !found
      {
        var popped := st.Pop();
        if popped.None? {
          return RanOut;
        }
        found := IsBanner(popped.value);
      }
      status := AfterBanner(v, st);
    }

    /** The `fzf-type: ` line and the configuration decode. */
    method AfterBanner(v: Variant, st: LineStack) returns (status: Status)
      requires Snapshot() == Fresh
      modifies this, st
      ensures Agrees(status, Snapshot(), st.lines, ParseAfterBanner(v, old(st.lines)))
    {
      ghost var s0 := st.lines;
      var line := PopUntilStartMatch(st, TypePrefix);
      if line.None? {
        return NoMatch;
      }
      var decoded := TypeField(v, line.value);
      if decoded.Failure? {
        return Raised(decoded.error);
      }
      fzfType := Some(decoded.value.name);
      browser := decoded.value.browser;
      assert TypeStep(v, s0) == Go(Snapshot(), st.lines);
      status := Load(st);
    }

    /** The `lines.txt loaded:` line. */
    method Load(st: LineStack) returns (status: Status)
      requires fzfType.Some? && !aborted && searches == [] && memoryMiB.None?
      modifies this, st
      ensures Agrees(status, Snapshot(), st.lines, ParseLoad(old(Snapshot()), old(st.lines)))
    {
      ghost var rec0, s0 := Snapshot(), st.lines;
      var line := PopUntilStartMatch(st, LoadPrefix);
      if line.None? {
        return NoMatch;
      }
      var fields := LoadFields(line.value);
      if fields.Failure? {
        return Raised(fields.error);
      }
      nrlines, loadTimeMs := Some(fields.value.0), Some(fields.value.1);
      assert LoadStep(rec0, s0) == Go(Snapshot(), st.lines);
      status := Initialized(st);
    }

    /** The `Fzf initialized ` line. */
    method Initialized(st: LineStack) returns (status: Status)
      requires fzfType.Some? && nrlines.Some? && loadTimeMs.Some?
      requires !aborted && searches == [] && memoryMiB.None?
      modifies this, st
      ensures Agrees(status, Snapshot(), st.lines, ParseInit(old(Snapshot()), old(st.lines)))
    {
      ghost var rec0, s0 := Snapshot(), st.lines;
      var line := PopUntilStartMatch(st, InitPrefix);
      if line.None? {
        return NoMatch;
      }
      var t := InitField(line.value);
      if t.Failure? {
        return Raised(t.error);
      }
      initTimeMs := Some(t.value - loadTimeMs.value);
      assert InitStep(rec0, s0) == Go(Snapshot(), st.lines);
      status := Searches(st);
    }

    /** The search loop, then the memory line. */
    method Searches(st: LineStack) returns (status: Status)
      requires fzfType.Some? && nrlines.Some? && loadTimeMs.Some? && initTimeMs.Some?
      requires !aborted && searches == [] && memoryMiB.None?
      modifies this, st
      ensures Agrees(status, Snapshot(), st.lines, ParseSearches(old(Snapshot()), old(st.lines)))
    {
      var ended := SearchUntilHelloWorld(st);
      if ended.Some? {
        return ended.value;
      }
      status := Memory(st);
    }

    /** `while "hello world" not in self.search_times_ms_nr_results`: None when
        the loop ends normally, else how the constructor ended inside it. */
    method SearchUntilHelloWorld(st: LineStack) returns (ended: Option<Status>)
      requires nrlines.Some? && !aborted && searches == []
      modifies this, st
      ensures match SearchLoop(old(nrlines.value), old(st.lines), [])
        case Done(t, rest) =>
          ended.None? && st.lines == rest && Snapshot() == old(Snapshot()).(searches := t)
        case Stopped(t, rest) =>
          ended == Some(NoMatch) && st.lines == rest
          && Snapshot() == old(Snapshot()).(searches := t, aborted := true)
        case LoopFatal(e) => ended == Some(Raised(e))
    {
      ghost var rec0, s0 := Snapshot(), st.lines;
      var n := nrlines.value;
      while !HasKey(searches, HelloWorld)
        invariant SearchLoop(n, st.lines, searches) == SearchLoop(n, s0, [])
        invariant Snapshot() == rec0.(searches := searches)
        decreases |st.lines|
      {
        var next := NextSearch(n, st);
        if next.Failure? {
          return Some(Raised(next.error));
        }
        if next.value.None? {
          return Some(NoMatch);
        }
        var (term, entry) := next.value.value;
        searches := Insert(searches, term, entry);
      }
      return None;
    }

    /** One pass of the search loop's body: Some((term, entry)), None for
        RunDataNoMatchException (with `aborted` set), or the exception. */
    method NextSearch(nr: int, st: LineStack) returns (r: Result<Option<(string, SearchEntry)>, PyError>)
      modifies this, st
      ensures match SearchBlock(nr, old(st.lines))
        case Block(term, entry, rest) =>
          r == Success(Some((term, entry))) && st.lines == rest && Snapshot() == old(Snapshot())
        case BlockStop(rest) =>
          r == Success(None) && st.lines == rest && Snapshot() == old(Snapshot()).(aborted := true)
        case BlockFatal(e) => r == Failure(e)
    {
      var line := PopUntilStartMatch(st, SearchPrefix);
      if line.None? {
        return Success(None);
      }
      var toks := Split(line.value);
      if |toks| < 2 {
        return Failure(IndexError);
      }
      var nrResults := ParseInt(toks[|toks| - 2]);
      if nrResults.None? {
        return Failure(ValueError);
      }
      var timing := TakeTiming(nr, st);
      if timing.Failure? {
        return Failure(timing.error);
      }
      var (time, term) := timing.value;
      var hash := TakeHash(st);
      if hash.Failure? {
        return Failure(hash.error);
      }
      var goTime := TakeGoTime(st);
      if goTime.Failure? {
        return Failure(goTime.error);
      }
      return Success(Some((term, SearchEntry(time, goTime.value, hash.value, nrResults.value))));
    }

    /** Browser runs keep `memory_used_mib = None`; the others need the
        resident-set-size line. */
    method Memory(st: LineStack) returns (status: Status)
      requires fzfType.Some? && nrlines.Some? && loadTimeMs.Some? && initTimeMs.Some?
      requires !aborted && HasKey(searches, HelloWorld) && DistinctKeys(searches)
      requires LastKeyIs(searches, HelloWorld) && memoryMiB.None?
      modifies this, st
      ensures Agrees(status, Snapshot(), st.lines, ParseMemory(old(Snapshot()), old(st.lines)))
    {
      ghost var rec0, s0 := Snapshot(), st.lines;
      if browser == Some(true) {
        memoryMiB := None;
        return Returned;
      }
      var line := PopUntilStartMatch(st, MemoryPrefix);
      if line.None? {
        return NoMatch;
      }
      var kb := MemoryField(line.value);
      if kb.Failure? {
        return Raised(kb.error);
      }
      memoryMiB := Some(kb.value / 1024.0);
      assert Snapshot() == rec0.(memoryMiB := Some(kb.value / 1024.0));
      return Returned;
    }
  }

  /** The timing line: `lines.pop()`, its prefix assert, the time and the term. */
  method TakeTiming(nr: int, st: LineStack) returns (r: Result<(int, string), PyError>)
    modifies st
    ensures match TimingLine(nr, old(st.lines))
      case Failure(e) => r == Failure(e)
      case Success((x, rest)) => r == Success(x) && st.lines == rest
  {
    var timing := st.Pop();
    if timing.None? {
      return Failure(IndexError);
    }
    var line := timing.value;
    if !StartsWith(line, TimingPrefix(nr)) {
      return Failure(AssertionError);
    }
    var toks := Split(line);
    if |toks| < 3 {
      return Failure(IndexError);
    }
    var time := ParseInt(toks[2]);
    if time.None? {
      return Failure(ValueError);
    }
    return Success((time.value, LastPiece(line, ' ', 4)));
  }

  /** The optional `hash: ` line. */
  method TakeHash(st: LineStack) returns (r: Result<Option<string>, PyError>)
    modifies st
    ensures match HashLine(old(st.lines))
      case Failure(e) => r == Failure(e)
      case Success((x, rest)) => r == Success(x) && st.lines == rest
  {
    var next := st.Peek();
    if next.None? {
      return Failure(IndexError);
    }
    if !StartsWith(next.value, HashPrefix) {
      return Success(None);
    }
    var line := st.Pop();
    var toks := Split(line.value);
    if |toks| < 2 {
      return Failure(IndexError);
    }
    return Success(Some(Take5(toks[1])));
  }

  /** The optional `+++ filename ` line. */
  method TakeGoTime(st: LineStack) returns (r: Result<Option<int>, PyError>)
    modifies st
    ensures match GoTimeLine(old(st.lines))
      case Failure(e) => r == Failure(e)
      case Success((x, rest)) => r == Success(x) && st.lines == rest
  {
    var next := st.Peek();
    if next.None? {
      return Failure(IndexError);
    }
    if !StartsWith(next.value, GoTimePrefix) {
      return Success(None);
    }
    var line := st.Pop();
    var toks := Split(line.value);
    if |toks| < 3 {
      return Failure(IndexError);
    }
    var time := ParseInt(toks[2]);
    if time.None? {
      return Failure(ValueError);
    }
    return Success(Some(time.value));
  }

  /** `r` with `xs` in front of its records. */
  function PrependAll(xs: seq<RunRecord>, r: Result<seq<RunRecord>, PyError>): Result<seq<RunRecord>, PyError> {
    match r
    case Failure(e) => Failure(e)
    case Success(ys) => Success(xs + ys)
  }

  lemma PrependAllPrepend(xs: seq<RunRecord>, x: RunRecord, r: Result<seq<RunRecord>, PyError>)
    ensures PrependAll(xs, Prepend(x, r)) == PrependAll(xs + [x], r)
  {
    if r.Success? {
      assert xs + ([x] + r.value) == xs + [x] + r.value;
    }
  }

  /** The `while True` loop over one file: a record is appended for every
      normal return and every NoMatch; OutOfLines ends the file. */
  method LoadFile(v: Variant, fileLines: seq<string>) returns (r: Result<seq<RunRecord>, PyError>)
    ensures r == LogSpec.LoadFile(v, fileLines)
  {
    var st := new LineStack(fileLines);
    var runs: seq<RunRecord> := [];
    assert PrependAll(runs, LoadLines(v, st.lines)) == LoadLines(v, st.lines) by {
      if LoadLines(v, st.lines).Success? {
        assert runs + LoadLines(v, st.lines).value == LoadLines(v, st.lines).value;
      }
    }
    while true
      invariant PrependAll(runs, LoadLines(v, st.lines)) == LogSpec.LoadFile(v, fileLines)
      decreases |st.lines|
    {
      ghost var s := st.lines;
      var rd := new RunData();
      var status := rd.Parse(v, st);
      if status == RanOut {
        assert runs + [] == runs;
        return Success(runs);
      }
      if status.Raised? {
        return Failure(status.err);
      }
      var rec := rd.Snapshot();
      assert LoadLines(v, s) == Prepend(rec, LoadLines(v, st.lines));
      PrependAllPrepend(runs, rec, LoadLines(v, st.lines));
      runs := runs + [rec];
    }
  }

  /** `loadRunData`: every file in turn, then the hash cross-check over all
      records; the warnings stand for the mismatch messages it prints. */
  method LoadRunData(v: Variant, files: seq<seq<string>>)
    returns (r: Result<seq<RunRecord>, PyError>, warnings: seq<CrossCheck.Warning>)
    ensures r == LoadFiles(v, files)
    ensures r.Success? ==> warnings == CrossCheck.Check(r.value).warnings
  {
    var runs: seq<RunRecord> := [];
    for i := 0 to |files|
      invariant LoadFiles(v, files[..i]) == Success(runs)
    {
      assert files[..i + 1][..i] == files[..i];
      var more := LoadFile(v, files[i]);
      if more.Failure? {
        LoadFilesStops(v, files, i + 1);
        return more, [];
      }
      runs := runs + more.value;
    }
    assert files[..|files|] == files;
    var st := CrossCheck.CrossCheck(runs);
    return Success(runs), st.warnings;
  }
}
