/**
  The benchmark-log scanner of base.py as pure functions over the line
  stack. A file's lines are reversed, so the LAST element of the sequence is
  the next line `lines.pop()` returns; "rest" is the stack a step leaves behind.
*/
module LogSpec {
  import opened Wrappers
  import opened PyStr
  import opened Records
  import opened RunTypes

  const Banner: string := "******"
  const TypePrefix: string := "fzf-type: "
  const LoadPrefix: string := "lines.txt loaded:"
  const InitPrefix: string := "Fzf initialized "
  const SearchPrefix: string := "Searching for '"
  const HashPrefix: string := "hash: "
  const GoTimePrefix: string := "+++ filename "
  const MemoryPrefix: string := "\tMaximum resident set size (kbytes):"

  /** The prefix every timing line of a run over `nrlines` lines must carry. */
  function TimingPrefix(nrlines: int): string {
    "--- ../" + IntToStr(nrlines) + ".txt "
  }

  predicate IsBanner(line: string) {
    StartsWith(line, Banner)
  }

  /** `lines[-1]` */
  function Top(s: seq<string>): string
    requires |s| > 0
  {
    s[|s| - 1]
  }

  /** The stack after `lines.pop()` */
  function Rest(s: seq<string>): seq<string>
    requires |s| > 0
  {
    s[..|s| - 1]
  }

  /** `list(reversed(xs))` */
  function Reverse<T>(xs: seq<T>): (r: seq<T>)
    ensures |r| == |xs|
  {
    if |xs| == 0 then [] else Reverse(xs[1..]) + [xs[0]]
  }

  /** The stack's top is the file's first line, and so on down. */
  lemma {:induction false} ReverseIndex<T>(xs: seq<T>)
    ensures forall i :: 0 <= i < |xs| ==> Reverse(xs)[i] == xs[|xs| - 1 - i]
  {
    if |xs| > 0 {
      ReverseIndex(xs[1..]);
      assert Reverse(xs) == Reverse(xs[1..]) + [xs[0]];
    }
  }

  /** Number of run-start banners on a stack. */
  function CountBanners(s: seq<string>): nat {
    if |s| == 0 then 0 else CountBanners(Rest(s)) + (if IsBanner(Top(s)) then 1 else 0)
  }

  /** `rest` is what is left of `s` after popping only lines that are not banners. */
  ghost predicate KeepsBanners(s: seq<string>, rest: seq<string>) {
    && |rest| <= |s| && s[..|rest|] == rest
    && forall i :: |rest| <= i < |s| ==> !IsBanner(s[i])
  }

  lemma {:induction false} KeepsBannersCount(s: seq<string>, rest: seq<string>)
    ensures KeepsBanners(s, rest) ==> CountBanners(rest) == CountBanners(s)
    decreases |s|
  {
    if KeepsBanners(s, rest) {
      if |rest| < |s| {
        assert Rest(s)[..|rest|] == rest;
        KeepsBannersCount(Rest(s), rest);
      } else {
        assert s == rest;
      }
    }
  }

  lemma KeepsBannersTrans(s: seq<string>, t: seq<string>, u: seq<string>)
    ensures KeepsBanners(s, t) && KeepsBanners(t, u) ==> KeepsBanners(s, u)
  {
    if KeepsBanners(s, t) && KeepsBanners(t, u) {
      assert s[..|u|] == s[..|t|][..|u|];
      forall i | |u| <= i < |s| ensures !IsBanner(s[i]) {
        if i < |t| { assert s[i] == t[i]; }
      }
    }
  }

  lemma {:induction false} NoBannerCount(s: seq<string>)
    ensures CountBanners(s) == 0 <==> forall i :: 0 <= i < |s| ==> !IsBanner(s[i])
  {
    if |s| > 0 {
      NoBannerCount(Rest(s));
      assert forall i :: 0 <= i < |s| - 1 ==> Rest(s)[i] == s[i];
    }
  }

  lemma {:induction false} CountBannersAppend(a: seq<string>, b: seq<string>)
    ensures CountBanners(a + b) == CountBanners(a) + CountBanners(b)
    decreases |b|
  {
    if |b| == 0 {
      assert a + b == a;
    } else {
      assert Rest(a + b) == a + Rest(b);
      CountBannersAppend(a, Rest(b));
    }
  }

  /** Reversing a file keeps its number of banners. */
  lemma {:induction false} CountBannersReverse(xs: seq<string>)
    ensures CountBanners(Reverse(xs)) == CountBanners(xs)
  {
    if |xs| > 0 {
      var x, tail := xs[0], xs[1..];
      CountBannersReverse(tail);
      CountBannersAppend(Reverse(tail), [x]);
      assert [x] + tail == xs;
      CountBannersAppend([x], tail);
    }
  }

  /** Result of `popuntilstartmatch`: the matching line and the stack after
      it, or the NoMatch exception and the stack it leaves. */
  datatype Found = Match(line: string, rest: seq<string>) | Stop(rest: seq<string>)

  /** `RunData.popuntilstartmatch(lines, start)`. */
  function PopUntilStartMatch(s: seq<string>, start: string): (r: Found)
    decreases |s|
    // the first line starting with `start` is returned; every line popped before it
    // starts neither with `start` nor with the banner
    ensures r.Match? ==>
      && |r.rest| < |s| && s[..|r.rest|] == r.rest && s[|r.rest|] == r.line
      && StartsWith(r.line, start)
      && forall i :: |r.rest| < i < |s| ==> !StartsWith(s[i], start) && !IsBanner(s[i])
    // NoMatch: the stack ran empty, or the next run's banner was met and pushed back
    ensures r.Stop? ==>
      && |r.rest| <= |s| && s[..|r.rest|] == r.rest
      && (r.rest == [] || (IsBanner(Top(r.rest)) && !StartsWith(Top(r.rest), start)))
      && forall i :: |r.rest| <= i < |s| ==> !StartsWith(s[i], start) && !IsBanner(s[i])
  {
    if |s| == 0 then Stop([])
    else if StartsWith(Top(s), start) then Match(Top(s), Rest(s))
    else if IsBanner(Top(s)) then Stop(s)
    else
      var r := PopUntilStartMatch(Rest(s), start);
      assert s[..|r.rest|] == Rest(s)[..|r.rest|];
      r
  }

  /** A prefix that does not begin with '*' never matches a banner line, so
      popping up to it removes no banner. */
  lemma PopUntilKeepsBanners(s: seq<string>, start: string)
    requires |start| > 0 && start[0] != '*'
    ensures var r := PopUntilStartMatch(s, start);
      && KeepsBanners(s, r.rest)
      && (r.Stop? ==> r.rest == [] || IsBanner(Top(r.rest)))
  {
    var r := PopUntilStartMatch(s, start);
    if r.Match? {
      assert !IsBanner(r.line) by { StartsWithDiffers(r.line, start, Banner); }
    }
  }

  /** The first loop of `__init__`: pop up to and including the next banner;
      None is `RunDataOutOfLinesException`. */
  function SkipToBanner(s: seq<string>): (r: Option<seq<string>>)
    ensures r.None? ==> forall i :: 0 <= i < |s| ==> !IsBanner(s[i])
    ensures r.Some? ==>
      && |r.value| < |s| && s[..|r.value|] == r.value && IsBanner(s[|r.value|])
      && forall i :: |r.value| < i < |s| ==> !IsBanner(s[i])
  {
    if |s| == 0 then None
    else if IsBanner(Top(s)) then Some(Rest(s))
    else
      var r := SkipToBanner(Rest(s));
      assert r.Some? ==> s[..|r.value|] == Rest(s)[..|r.value|];
      r
  }

  /** Passing a banner removes exactly one banner from the stack. */
  lemma SkipToBannerCount(s: seq<string>)
    ensures SkipToBanner(s).None? <==> CountBanners(s) == 0
    ensures SkipToBanner(s).Some? ==>
      CountBanners(SkipToBanner(s).value) == CountBanners(s) - 1
  {
    NoBannerCount(s);
    match SkipToBanner(s)
    case None =>
    case Some(r) =>
      var upTo := s[..|r| + 1];
      assert KeepsBanners(s, upTo);
      KeepsBannersCount(s, upTo);
      assert Rest(upTo) == r;
  }

  /** `s[:5]` */
  function Take5(s: string): (r: string)
    ensures |r| <= 5 && |r| <= |s| && r == s[..|r|] && (|s| >= 5 ==> |r| == 5) && (|s| < 5 ==> r == s)
  {
    if |s| <= 5 then s else s[..5]
  }

  /** One optional line of a search block: (value, stack) or the exception. */
  type Step<T> = Result<(T, seq<string>), PyError>

  /** The unconditional `lines.pop()` of the timing line, its prefix assert,
      `int(line.split()[2])` and the term `line.split(" ", 4)[-1]`. */
  function TimingLine(nrlines: int, s: seq<string>): (r: Step<(int, string)>)
    ensures |s| == 0 ==> r == Failure(IndexError)
    ensures |s| > 0 && !StartsWith(Top(s), TimingPrefix(nrlines)) ==> r == Failure(AssertionError)
    ensures r.Success? ==> |s| > 0 && r.value.1 == Rest(s)
                           && StartsWith(Top(s), TimingPrefix(nrlines))
    // the time is the third field, the term what follows the fourth space
    ensures r.Success? ==>
      && |Split(Top(s))| >= 3 && ParseInt(Split(Top(s))[2]) == Some(r.value.0.0)
      && r.value.0.1 == LastPiece(Top(s), ' ', 4)
  {
    if |s| == 0 then Failure(IndexError)
    else
      var line := Top(s);
      if !StartsWith(line, TimingPrefix(nrlines)) then Failure(AssertionError)
      else
        var toks := Split(line);
        if |toks| < 3 then Failure(IndexError)
        else match ParseInt(toks[2])
          case None => Failure(ValueError)
          case Some(t) => Success(((t, LastPiece(line, ' ', 4)), Rest(s)))
  }

  /** `if lines[-1].startswith("hash: ")`: the hash is the first five
      characters of the line's second field, or absent. */
  function HashLine(s: seq<string>): (r: Step<Option<string>>)
    ensures r.Success? ==> |s| > 0
    ensures r.Success? && r.value.0.Some? ==> StartsWith(Top(s), HashPrefix) && r.value.1 == Rest(s)
    ensures r.Success? && r.value.0.None? ==> !StartsWith(Top(s), HashPrefix) && r.value.1 == s
    // the hash is the first five characters of the second field
    ensures r.Success? && r.value.0.Some? ==>
      |Split(Top(s))| >= 2 && r.value.0.value == Take5(Split(Top(s))[1])
  {
    if |s| == 0 then Failure(IndexError)
    else if StartsWith(Top(s), HashPrefix) then
      var toks := Split(Top(s));
      if |toks| < 2 then Failure(IndexError) else Success((Some(Take5(toks[1])), Rest(s)))
    else Success((None, s))
  }

  /** `if lines[-1].startswith("+++ filename ")`: the secondary search time, or absent. */
  function GoTimeLine(s: seq<string>): (r: Step<Option<int>>)
    ensures r.Success? ==> |s| > 0
    ensures r.Success? && r.value.0.Some? ==> StartsWith(Top(s), GoTimePrefix) && r.value.1 == Rest(s)
    ensures r.Success? && r.value.0.None? ==> !StartsWith(Top(s), GoTimePrefix) && r.value.1 == s
    // the secondary time is the third field
    ensures r.Success? && r.value.0.Some? ==>
      |Split(Top(s))| >= 3 && ParseInt(Split(Top(s))[2]) == r.value.0
  {
    if |s| == 0 then Failure(IndexError)
    else if StartsWith(Top(s), GoTimePrefix) then
      var toks := Split(Top(s));
      if |toks| < 3 then Failure(IndexError)
      else match ParseInt(toks[2])
        case None => Failure(ValueError)
        case Some(t) => Success((Some(t), Rest(s)))
    else Success((None, s))
  }

  /** One pass through the body of the search loop. */
  datatype Block =
    | Block(term: string, entry: SearchEntry, rest: seq<string>)
    | BlockStop(rest: seq<string>)
    | BlockFatal(err: PyError)

  function SearchBlock(nrlines: int, s: seq<string>): (b: Block)
    ensures b.Block? ==> |b.rest| < |s| && KeepsBanners(s, b.rest)
    ensures b.BlockStop? ==> KeepsBanners(s, b.rest) && (b.rest == [] || IsBanner(Top(b.rest)))
    // the entry holds what the search line, the timing line and the optional
    // hash and "+++" lines after it say
    ensures b.Block? ==> BlockReads(nrlines, s, b)
  {
    PopUntilKeepsBanners(s, SearchPrefix);
    match PopUntilStartMatch(s, SearchPrefix)
    case Stop(r) => BlockStop(r)
    case Match(line, s1) =>
      var b := ReadBlock(nrlines, line, s1);
      KeepsBannersTrans(s, s1, if b.Block? then b.rest else s1);
      b
  }

  /** The search block after its `Searching for '` line. */
  function ReadBlock(nrlines: int, line: string, s1: seq<string>): (b: Block)
    ensures !b.BlockStop?
    ensures b.Block? ==> |b.rest| < |s1| + 1 && KeepsBanners(s1, b.rest)
    ensures b.Block? ==> BlockLines(nrlines, line, s1, b) == true
    // the block is read exactly when each of its lines is read without an error
    ensures b.Block? <==> LinesRead(nrlines, line, s1) == true
  {
    var toks := Split(line);
    if |toks| < 2 then BlockFatal(IndexError)
    else match ParseInt(toks[|toks| - 2])
      case None => BlockFatal(ValueError)
      case Some(nrResults) => ReadEntry(nrlines, nrResults, s1)
  }

  /** The timing line and the optional lines after the search line. */
  function ReadEntry(nrlines: int, nrResults: int, s1: seq<string>): (b: Block)
    ensures !b.BlockStop?
    ensures b.Block? ==> |b.rest| < |s1| + 1 && KeepsBanners(s1, b.rest)
    ensures b.Block? ==> b.entry.nrResults == nrResults && EntryLines(nrlines, s1, b) == true
    ensures b.Block? <==> EntryRead(nrlines, s1) == true
  {
    match TimingLine(nrlines, s1)
    case Failure(e) => BlockFatal(e)
    case Success(((time, term), s2)) =>
      match HashLine(s2)
      case Failure(e) => BlockFatal(e)
      case Success((hash, s3)) =>
        match GoTimeLine(s3)
        case Failure(e) => BlockFatal(e)
        case Success((goTime, s4)) =>
          OptionalPopKeeps(s1, s2, s3, s4, nrlines);
          Block(term, SearchEntry(time, goTime, hash, nrResults), s4)
  }

  /** The search line has a numeric next-to-last field and the timing line
      and the optional lines below it are read without an error. */
  predicate LinesRead(nrlines: int, line: string, s1: seq<string>) {
    && |Split(line)| >= 2 && ParseInt(Split(line)[|Split(line)| - 2]).Some?
    && EntryRead(nrlines, s1)
  }

  /** The timing line and the optional lines are read without an error. */
  predicate EntryRead(nrlines: int, s1: seq<string>) {
    var t := TimingLine(nrlines, s1);
    && t.Success?
    && var h := HashLine(t.value.1);
    && h.Success? && GoTimeLine(h.value.1).Success?
  }

  /** The lines a search block is read from, and the entry and term they give. */
  predicate BlockReads(nrlines: int, s: seq<string>, b: Block)
    requires b.Block?
  {
    var f := PopUntilStartMatch(s, SearchPrefix);
    f.Match? && BlockLines(nrlines, f.line, f.rest, b)
  }

  /** The number of results is the next-to-last field of the search line;
      time and term come from the timing line, then the hash and the
      secondary time from the optional lines. */
  predicate BlockLines(nrlines: int, line: string, s1: seq<string>, b: Block)
    requires b.Block?
  {
    && |Split(line)| >= 2
    && ParseInt(Split(line)[|Split(line)| - 2]) == Some(b.entry.nrResults)
    && EntryLines(nrlines, s1, b)
  }

  /** Time and term come from the timing line, then the hash and the
      secondary time from the optional lines. */
  predicate EntryLines(nrlines: int, s1: seq<string>, b: Block)
    requires b.Block?
  {
    var t := TimingLine(nrlines, s1);
    && t.Success? && t.value.0 == (b.entry.searchTimeMs, b.term)
    && var h := HashLine(t.value.1);
    && h.Success? && h.value.0 == b.entry.hash
    && GoTimeLine(h.value.1) == Success((b.entry.goSearchTimeMs, b.rest))
  }

  /** Popping a line that starts with a prefix other than '*' keeps every banner. */
  lemma PopKeepsBanners(s: seq<string>, prefix: string)
    requires |s| > 0 && |prefix| > 0 && prefix[0] != '*' && StartsWith(Top(s), prefix)
    ensures KeepsBanners(s, Rest(s))
  {
    StartsWithDiffers(Top(s), prefix, Banner);
  }

  /** The timing, hash and "+++" lines are not banners. */
  lemma OptionalPopKeeps(s1: seq<string>, s2: seq<string>, s3: seq<string>, s4: seq<string>, nrlines: int)
    requires |s1| > 0 && s2 == Rest(s1) && StartsWith(Top(s1), TimingPrefix(nrlines))
    requires s3 == s2 || (|s2| > 0 && s3 == Rest(s2) && StartsWith(Top(s2), HashPrefix))
    requires s4 == s3 || (|s3| > 0 && s4 == Rest(s3) && StartsWith(Top(s3), GoTimePrefix))
    ensures KeepsBanners(s1, s4)
  {
    PopKeepsBanners(s1, TimingPrefix(nrlines));
    if s3 != s2 { PopKeepsBanners(s2, HashPrefix); }
    if s4 != s3 { PopKeepsBanners(s3, GoTimePrefix); }
    KeepsBannersTrans(s1, s2, s3);
    KeepsBannersTrans(s1, s3, s4);
  }

  /** How the `while "hello world" not in ...` loop ends. */
  datatype LoopEnd =
    | Done(table: SearchTable, rest: seq<string>)
    | Stopped(table: SearchTable, rest: seq<string>)
    | LoopFatal(err: PyError)

  function SearchLoop(nrlines: int, s: seq<string>, table: SearchTable): (r: LoopEnd)
    decreases |s|
    ensures r.Done? ==> HasKey(r.table, HelloWorld) && KeepsBanners(s, r.rest)
    ensures r.Stopped? ==> KeepsBanners(s, r.rest) && (r.rest == [] || IsBanner(Top(r.rest)))
    ensures DistinctKeys(table) && !r.LoopFatal? ==> DistinctKeys(r.table)
    // entered without "hello world", the loop ends right after recording it
    ensures r.Done? && !HasKey(table, HelloWorld) ==> LastKeyIs(r.table, HelloWorld)
  {
    if HasKey(table, HelloWorld) then Done(table, s)
    else match SearchBlock(nrlines, s)
      case BlockStop(rest) => Stopped(table, rest)
      case BlockFatal(e) => LoopFatal(e)
      case Block(term, entry, rest) =>
        var t := Insert(table, term, entry);
        assert HasKey(t, HelloWorld) ==> term == HelloWorld && t == table + [(term, entry)] by {
          if term != HelloWorld {
            assert Lookup(t, HelloWorld) == Lookup(table, HelloWorld);
          }
        }
        var r := SearchLoop(nrlines, rest, t);
        KeepsBannersTrans(s, rest, if r.LoopFatal? then rest else r.rest);
        r
  }

  /** `line.split()[1]` of the `fzf-type: ` line, decoded. */
  function TypeField(v: Variant, line: string): Result<Decoded, PyError> {
    var toks := Split(line);
    if |toks| < 2 then Failure(IndexError)
    else DecodeType(v, toks[1])
  }

  /** `_, _, nrlines, _, _, lines_load_time_ms = line.split()`: exactly six
      fields, the third the haystack size and the sixth the load time. */
  function LoadFields(line: string): Result<(int, int), PyError> {
    var toks := Split(line);
    if |toks| != 6 then Failure(ValueError)
    else match ParseInt(toks[2])
      case None => Failure(ValueError)
      case Some(n) =>
        match ParseInt(toks[5])
        case None => Failure(ValueError)
        case Some(t) => Success((n, t))
  }

  /** `int(line.split()[-1])` of the `Fzf initialized ` line. */
  function InitField(line: string): Result<int, PyError> {
    var toks := Split(line);
    if |toks| == 0 then Failure(IndexError)
    else match ParseInt(toks[|toks| - 1])
      case None => Failure(ValueError)
      case Some(t) => Success(t)
  }

  /** `float(line.split()[-1])` of the resident-set-size line (kbytes). */
  function MemoryField(line: string): Result<real, PyError> {
    var toks := Split(line);
    if |toks| == 0 then Failure(IndexError)
    else match ParseFloat(toks[|toks| - 1])
      case None => Failure(ValueError)
      case Some(kb) => Success(kb)
  }

  /** The outcome of the constructor and the stack it leaves (the stack is
      irrelevant after a fatal exception and is then left empty). */
  type Parse = (Outcome, seq<string>)

  /** What `__init__` promises once it has passed a banner. */
  ghost predicate AfterBannerOk(s: seq<string>, res: Parse) {
    && (res.0.Parsed? || res.0.Aborted? || res.0.Fatal?)
    && (!res.0.Fatal? ==> KeepsBanners(s, res.1))
    && (res.0.Parsed? ==> Complete(res.0.rec))
    && (res.0.Aborted? ==> res.0.partial.aborted && (res.1 == [] || IsBanner(Top(res.1))))
  }

  function Abort(rec: RunRecord, rest: seq<string>): Parse {
    (Aborted(rec.(aborted := true)), rest)
  }

  /** `RunData(lines)`: one run record from the top of the stack. */
  function ParseRun(v: Variant, s: seq<string>): (res: Parse)
    // OutOfLines exactly when no banner is left, and then the stack is empty
    ensures res.0.OutOfLines? <==> CountBanners(s) == 0
    ensures res.0.OutOfLines? ==> res.1 == []
    // every other non-fatal call consumes exactly one banner for good
    ensures res.0.Parsed? || res.0.Aborted? ==>
      |res.1| < |s| && CountBanners(res.1) == CountBanners(s) - 1
    ensures res.0.Parsed? ==> Complete(res.0.rec)
    ensures res.0.Aborted? ==> res.0.partial.aborted && (res.1 == [] || IsBanner(Top(res.1)))
    // the earlier variant has no browser runs: every complete record has its memory figure
    ensures v == Aug16 && res.0.Parsed? ==> res.0.rec.memoryMiB.Some?
  {
    SkipToBannerCount(s);
    match SkipToBanner(s)
    case None => (OutOfLines, [])
    case Some(s1) =>
      var res := ParseAfterBanner(v, s1);
      KeepsBannersCount(s1, res.1);
      res
  }

  /** Where one line stage of `__init__` leaves the constructor: it goes on
      with the updated record and the rest of the stack, or it ends here. */
  datatype Next = Go(rec: RunRecord, rest: seq<string>) | Halt(res: Parse)

  /** A stage that ends the constructor ends it by an abort or an exception,
      as `__init__` may end after the banner. */
  ghost predicate HaltOk(s: seq<string>, n: Next) {
    n.Halt? ==> AfterBannerOk(s, n.res) && !n.res.0.Parsed?
  }

  /** `popuntilstartmatch(lines, "fzf-type: ")` and the configuration decode. */
  function TypeStep(v: Variant, s: seq<string>): (n: Next)
    ensures HaltOk(s, n)
    ensures n.Go? ==>
      && KeepsBanners(s, n.rest) && n.rec.fzfType.Some?
      && n.rec == Fresh.(fzfType := n.rec.fzfType, browser := n.rec.browser)
    ensures v == Aug16 && n.Go? ==> n.rec.browser.None?
    // it goes on exactly when the anchor line is found and its code decodes
    ensures var f := PopUntilStartMatch(s, TypePrefix);
      n.Go? <==> f.Match? && TypeField(v, f.line).Success?
    ensures var f := PopUntilStartMatch(s, TypePrefix);
      n.Go? && f.Match? ==>
      && n.rest == f.rest
      && TypeField(v, f.line).value == Decoded(n.rec.fzfType.value, n.rec.browser)
  {
    PopUntilKeepsBanners(s, TypePrefix);
    match PopUntilStartMatch(s, TypePrefix)
    case Stop(rest) => Halt(Abort(Fresh, rest))
    case Match(line, s1) =>
      match TypeField(v, line)
      case Failure(e) => Halt((Fatal(e), []))
      case Success(d) => Go(Fresh.(fzfType := Some(d.name), browser := d.browser), s1)
  }

  /** `popuntilstartmatch(lines, "lines.txt loaded:")`: the haystack size and the load time. */
  function LoadStep(rec: RunRecord, s: seq<string>): (n: Next)
    requires !rec.aborted
    ensures HaltOk(s, n)
    ensures n.Go? ==>
      && KeepsBanners(s, n.rest) && n.rec.nrlines.Some? && n.rec.loadTimeMs.Some?
      && n.rec == rec.(nrlines := n.rec.nrlines, loadTimeMs := n.rec.loadTimeMs)
    // it goes on exactly when the anchor line is found and has two numeric fields
    ensures var f := PopUntilStartMatch(s, LoadPrefix);
      n.Go? <==> f.Match? && LoadFields(f.line).Success?
    ensures var f := PopUntilStartMatch(s, LoadPrefix);
      n.Go? && f.Match? ==>
      && n.rest == f.rest
      && LoadFields(f.line).value == (n.rec.nrlines.value, n.rec.loadTimeMs.value)
  {
    PopUntilKeepsBanners(s, LoadPrefix);
    match PopUntilStartMatch(s, LoadPrefix)
    case Stop(rest) => Halt(Abort(rec, rest))
    case Match(line, s1) =>
      match LoadFields(line)
      case Failure(e) => Halt((Fatal(e), []))
      case Success((nr, t)) => Go(rec.(nrlines := Some(nr), loadTimeMs := Some(t)), s1)
  }

  /** `popuntilstartmatch(lines, "Fzf initialized ")`: the init time is the
      last field minus the load time. */
  function InitStep(rec: RunRecord, s: seq<string>): (n: Next)
    requires !rec.aborted && rec.loadTimeMs.Some?
    ensures HaltOk(s, n)
    ensures n.Go? ==>
      && KeepsBanners(s, n.rest) && n.rec.initTimeMs.Some?
      && n.rec == rec.(initTimeMs := n.rec.initTimeMs)
    // it goes on exactly when the anchor line is found and ends in a number,
    // and that number is the load time plus the init time
    ensures var f := PopUntilStartMatch(s, InitPrefix);
      n.Go? <==> f.Match? && InitField(f.line).Success?
    ensures var f := PopUntilStartMatch(s, InitPrefix);
      n.Go? && f.Match? ==>
      && n.rest == f.rest
      && InitField(f.line).value == rec.loadTimeMs.value + n.rec.initTimeMs.value
  {
    PopUntilKeepsBanners(s, InitPrefix);
    match PopUntilStartMatch(s, InitPrefix)
    case Stop(rest) => Halt(Abort(rec, rest))
    case Match(line, s1) =>
      match InitField(line)
      case Failure(e) => Halt((Fatal(e), []))
      case Success(t) => Go(rec.(initTimeMs := Some(t - rec.loadTimeMs.value)), s1)
  }

  /** From the `fzf-type: ` line on. */
  function ParseAfterBanner(v: Variant, s: seq<string>): (res: Parse)
    ensures AfterBannerOk(s, res)
    ensures v == Aug16 && res.0.Parsed? ==> res.0.rec.browser.None?
  {
    match TypeStep(v, s)
    case Halt(res) => res
    case Go(rec, s1) =>
      var res := ParseLoad(rec, s1);
      KeepsBannersTrans(s, s1, res.1);
      res
  }

  /** From the `lines.txt loaded:` line on. */
  function ParseLoad(rec: RunRecord, s: seq<string>): (res: Parse)
    requires rec.fzfType.Some? && !rec.aborted && rec.searches == [] && rec.memoryMiB.None?
    ensures AfterBannerOk(s, res)
    ensures res.0.Parsed? ==> res.0.rec.browser == rec.browser
  {
    match LoadStep(rec, s)
    case Halt(res) => res
    case Go(rec', s1) =>
      var res := ParseInit(rec', s1);
      KeepsBannersTrans(s, s1, res.1);
      res
  }

  /** From the `Fzf initialized ` line on. */
  function ParseInit(rec: RunRecord, s: seq<string>): (res: Parse)
    requires rec.fzfType.Some? && rec.nrlines.Some? && rec.loadTimeMs.Some?
    requires !rec.aborted && rec.searches == [] && rec.memoryMiB.None?
    ensures AfterBannerOk(s, res)
    ensures res.0.Parsed? ==> res.0.rec.browser == rec.browser
  {
    match InitStep(rec, s)
    case Halt(res) => res
    case Go(rec', s1) =>
      var res := ParseSearches(rec', s1);
      KeepsBannersTrans(s, s1, res.1);
      res
  }

  /** The search loop, until "hello world" has been recorded. */
  function ParseSearches(rec: RunRecord, s: seq<string>): (res: Parse)
    requires rec.fzfType.Some? && rec.nrlines.Some? && rec.loadTimeMs.Some? && rec.initTimeMs.Some?
    requires !rec.aborted && rec.searches == [] && rec.memoryMiB.None?
    ensures AfterBannerOk(s, res)
    ensures res.0.Parsed? ==> res.0.rec.browser == rec.browser
  {
    assert DistinctKeys([]);
    match SearchLoop(rec.nrlines.value, s, [])
    case LoopFatal(e) => (Fatal(e), [])
    case Stopped(t, rest) => Abort(rec.(searches := t), rest)
    case Done(t, rest) =>
      var rec' := rec.(searches := t);
      assert rec'.memoryMiB.None? && DistinctKeys(t) && LastKeyIs(t, HelloWorld);
      var res := ParseMemory(rec', rest);
      KeepsBannersTrans(s, rest, res.1);
      res
  }

  /** Browser runs record no memory; every other run needs the
      resident-set-size line, whose last field (kbytes) becomes MiB. */
  function ParseMemory(rec: RunRecord, s: seq<string>): (res: Parse)
    requires rec.fzfType.Some? && rec.nrlines.Some? && rec.loadTimeMs.Some? && rec.initTimeMs.Some?
    requires !rec.aborted && HasKey(rec.searches, HelloWorld) && DistinctKeys(rec.searches)
    requires LastKeyIs(rec.searches, HelloWorld) && rec.memoryMiB.None?
    ensures AfterBannerOk(s, res)
    ensures res.0.Parsed? ==> res.0.rec.browser == rec.browser
    // a browser run is done; any other run reads the resident-set size,
    // in kbytes, and records it divided by 1024
    ensures rec.browser == Some(true) ==> res == (Parsed(rec), s)
    ensures rec.browser != Some(true) && res.0.Parsed? ==> MemoryRead(rec, s, res)
    // and it completes exactly when that line is found and ends in a number
    ensures rec.browser != Some(true) ==> (res.0.Parsed? <==> MemoryFound(s))
  {
    if rec.browser == Some(true) then (Parsed(rec.(memoryMiB := None)), s)
    else
      PopUntilKeepsBanners(s, MemoryPrefix);
      match PopUntilStartMatch(s, MemoryPrefix)
      case Stop(rest) => Abort(rec, rest)
      case Match(line, s1) =>
        match MemoryField(line)
        case Failure(e) => (Fatal(e), [])
        case Success(kb) => (Parsed(rec.(memoryMiB := Some(kb / 1024.0))), s1)
  }

  /** The resident-set-size line is found and its last field is a number. */
  predicate MemoryFound(s: seq<string>) {
    var f := PopUntilStartMatch(s, MemoryPrefix);
    f.Match? && MemoryField(f.line).Success?
  }

  /** The record is `rec` with the memory figure of the resident-set-size
      line, in kbytes, divided by 1024. */
  predicate MemoryRead(rec: RunRecord, s: seq<string>, res: Parse) {
    var f := PopUntilStartMatch(s, MemoryPrefix);
    && f.Match? && MemoryField(f.line).Success? && res.1 == f.rest
    && res.0 == Parsed(rec.(memoryMiB := Some(MemoryField(f.line).value / 1024.0)))
  }

  /** The per-file `while True` loop of `loadRunData`: records, complete or
      aborted, until OutOfLines; an uncaught exception ends everything. */
  function LoadLines(v: Variant, s: seq<string>): (r: Result<seq<RunRecord>, PyError>)
    decreases |s|
    // one record per banner on the stack
    ensures r.Success? ==> |r.value| == CountBanners(s)
  {
    var (o, rest) := ParseRun(v, s);
    match o
    case OutOfLines => Success([])
    case Fatal(e) => Failure(e)
    case Parsed(rec) => Prepend(rec, LoadLines(v, rest))
    case Aborted(rec) => Prepend(rec, LoadLines(v, rest))
  }

  /** A record `RunData` hands back: aborted, or with every field filled in. */
  predicate Settled(r: RunRecord) {
    r.aborted || Complete(r)
  }

  predicate AllSettled(runs: seq<RunRecord>) {
    forall i :: 0 <= i < |runs| ==> Settled(runs[i])
  }

  /** Every record `LoadLines` returns is either aborted or complete. */
  lemma {:induction false} LoadLinesSettled(v: Variant, s: seq<string>)
    ensures LoadLines(v, s).Success? ==> AllSettled(LoadLines(v, s).value)
    decreases |s|
  {
    var (o, rest) := ParseRun(v, s);
    if o.Parsed? || o.Aborted? {
      var rec := if o.Parsed? then o.rec else o.partial;
      LoadLinesSettled(v, rest);
      PrependSettled(rec, LoadLines(v, rest));
    }
  }

  lemma PrependSettled(rec: RunRecord, r: Result<seq<RunRecord>, PyError>)
    requires Settled(rec) && (r.Success? ==> AllSettled(r.value))
    ensures Prepend(rec, r).Success? ==> AllSettled(Prepend(rec, r).value)
  {
    if r.Success? {
      var full := [rec] + r.value;
      forall i | 0 <= i < |full| ensures Settled(full[i]) {
        if i > 0 { assert full[i] == r.value[i - 1]; }
      }
    }
  }

  function Prepend<T>(x: T, r: Result<seq<T>, PyError>): (r': Result<seq<T>, PyError>)
    ensures r'.Success? <==> r.Success?
    ensures r'.Success? ==> r'.value == [x] + r.value
  {
    match r
    case Failure(e) => Failure(e)
    case Success(xs) => Success([x] + xs)
  }

  /** One file: its lines (in file order) reversed onto the stack, then scanned. */
  function LoadFile(v: Variant, fileLines: seq<string>): Result<seq<RunRecord>, PyError> {
    LoadLines(v, Reverse(fileLines))
  }

  /** A scanned file yields one record per banner line in it. */
  lemma LoadFileCount(v: Variant, fileLines: seq<string>)
    ensures LoadFile(v, fileLines).Success? ==>
      |LoadFile(v, fileLines).value| == CountBanners(fileLines)
  {
    CountBannersReverse(fileLines);
  }

  /** All files in order; the first uncaught exception ends the report. */
  function LoadFiles(v: Variant, files: seq<seq<string>>): (r: Result<seq<RunRecord>, PyError>)
    decreases |files|
  {
    if |files| == 0 then Success([])
    else match LoadFiles(v, files[..|files| - 1])
      case Failure(e) => Failure(e)
      case Success(runs) =>
        match LoadFile(v, files[|files| - 1])
        case Failure(e) => Failure(e)
        case Success(more) => Success(runs + more)
  }

  /** Once a file raises, the later files change nothing: the report is that exception. */
  lemma {:induction false} LoadFilesStops(v: Variant, files: seq<seq<string>>, i: nat)
    requires i <= |files|
    ensures LoadFiles(v, files[..i]).Failure? ==> LoadFiles(v, files) == LoadFiles(v, files[..i])
    decreases |files| - i
  {
    if i < |files| {
      assert files[..i + 1][..i] == files[..i];
      LoadFilesStops(v, files, i + 1);
    } else {
      assert files[..i] == files;
    }
  }
}
