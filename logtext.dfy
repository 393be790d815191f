/**
  The log a benchmark run writes, line by line, in the shape `RunData`
  reads it, and the round trip: scanning the lines a run writes gives back
  that run's record, field for field. The wording between the fields the
  scanner reads is chosen here; the scanner looks only at the prefixes and
  at the fields it splits out.
*/
module LogText {
  import opened Wrappers
  import opened PyStr
  import opened Records
  import opened RunTypes
  import opened LogSpec

  /** What a benchmark run reports, before any of it is written out. */
  datatype RunLog = RunLog(
    config: Config,
    nrlines: int,
    loadTimeMs: int,
    initTimeMs: int,
    searches: SearchTable,
    memoryKb: int)

  /** A hash the log can carry: one field of at most five characters. */
  predicate EntryWritable(e: SearchEntry) {
    e.hash.Some? ==> IsToken(e.hash.value) && |e.hash.value| <= 5
  }

  /** A run the benchmark can report: a known configuration, distinct search
      terms ending with "hello world", and writable hashes. */
  predicate Writable(v: Variant, log: RunLog) {
    && ValidConfig(v, log.config)
    && LastKeyIs(log.searches, HelloWorld) && HasKey(log.searches, HelloWorld)
    && DistinctKeys(log.searches)
    && forall i :: 0 <= i < |log.searches| ==> EntryWritable(log.searches[i].1)
  }

  // ---- the lines ----

  function TypeText(c: Config): string {
    Join(" ", ["fzf-type:", RawCode(c)])
  }

  function LoadText(nrlines: int, loadTimeMs: int): string {
    Join(" ", ["lines.txt", "loaded:"] + [IntToStr(nrlines), "lines", "in", IntToStr(loadTimeMs)])
  }

  /** The benchmark reports the time since start, load included. */
  function InitText(sinceStartMs: int): string {
    Join(" ", ["Fzf", "initialized"] + ["in", IntToStr(sinceStartMs)])
  }

  function SearchText(term: string, nrResults: int): string {
    SearchPrefix + term + "'" + " " + IntToStr(nrResults) + " " + "results"
  }

  function HaystackFile(nrlines: int): string {
    "../" + IntToStr(nrlines) + ".txt"
  }

  function TimingText(nrlines: int, timeMs: int, term: string): string {
    "---" + " " + (HaystackFile(nrlines) + " " + (IntToStr(timeMs) + " " + ("ms" + " " + term)))
  }

  function HashText(h: string): string {
    HashPrefix + h
  }

  function GoTimeText(timeMs: int): string {
    GoTimePrefix + IntToStr(timeMs)
  }

  function MemoryText(kb: int): string {
    MemoryPrefix + " " + IntToStr(kb)
  }

  /** The "+++" line of an entry that has a secondary time. */
  function GoLines(e: SearchEntry): seq<string> {
    if e.goSearchTimeMs.Some? then [GoTimeText(e.goSearchTimeMs.value)] else []
  }

  /** The hash line of an entry that has a hash. */
  function HashLines(e: SearchEntry): seq<string> {
    if e.hash.Some? then [HashText(e.hash.value)] else []
  }

  /** The lines of one search: the search line, the timing line, and the
      optional hash and "+++" lines. */
  function BlockText(nrlines: int, term: string, e: SearchEntry): seq<string> {
    [SearchText(term, e.nrResults), TimingText(nrlines, e.searchTimeMs, term)]
    + HashLines(e)
    + GoLines(e)
  }

  function BlocksText(nrlines: int, t: SearchTable): seq<string> {
    if |t| == 0 then [] else BlockText(nrlines, t[0].0, t[0].1) + BlocksText(nrlines, t[1..])
  }

  /** Browser runs print no resident-set size. */
  function MemoryLines(c: Config, kb: int): seq<string> {
    if c.browser.Some? then [] else [MemoryText(kb)]
  }

  /** Every line of one run, in file order. */
  function RunText(log: RunLog): seq<string> {
    [Banner, TypeText(log.config), LoadText(log.nrlines, log.loadTimeMs),
     InitText(log.loadTimeMs + log.initTimeMs)]
    + BlocksText(log.nrlines, log.searches)
    + MemoryLines(log.config, log.memoryKb)
  }

  /** The lines of several runs, one after the other. */
  function LogLines(logs: seq<RunLog>): seq<string> {
    if |logs| == 0 then [] else RunText(logs[0]) + LogLines(logs[1..])
  }

  /** The record `RunData` should build from a run's lines. */
  function Record(v: Variant, log: RunLog): RunRecord
    requires ValidConfig(v, log.config)
  {
    RunRecord(
      Some(Label(v, log.config)),
      if v == Aug16 then None else Some(log.config.browser.Some?),
      Some(log.nrlines), Some(log.loadTimeMs), Some(log.initTimeMs),
      if log.config.browser.Some? then None else Some(log.memoryKb as real / 1024.0),
      log.searches, false)
  }

  function RecordsOf(v: Variant, logs: seq<RunLog>): seq<RunRecord>
    requires forall i :: 0 <= i < |logs| ==> ValidConfig(v, logs[i].config)
  {
    if |logs| == 0 then [] else [Record(v, logs[0])] + RecordsOf(v, logs[1..])
  }

  // ---- fields ----

  lemma TokenConcat(a: string, b: string)
    requires IsToken(a) && IsToken(b)
    ensures IsToken(a + b)
  {
    var s := a + b;
    assert forall i :: 0 <= i < |s| ==> s[i] == if i < |a| then a[i] else b[i - |a|];
  }

  /** Fields joined by single spaces split back into those fields. */
  lemma {:induction false} SplitJoin(ws: seq<string>)
    requires |ws| > 0 && forall i :: 0 <= i < |ws| ==> IsToken(ws[i])
    ensures Split(Join(" ", ws)) == ws
  {
    if |ws| == 1 {
      SplitToken(ws[0]);
    } else {
      SplitJoin(ws[1..]);
      SplitConsRun(ws[0], " ", Join(" ", ws[1..]));
      assert ws == [ws[0]] + ws[1..];
    }
  }

  /** Printable ASCII other than the space is never whitespace. */
  lemma PrintableToken(t: string)
    requires |t| > 0 && forall i :: 0 <= i < |t| ==> '!' <= t[i] <= '~'
    ensures IsToken(t)
  {
  }

  lemma CodeToken(v: Variant, code: string)
    requires code in TypeMap(v)
    ensures IsToken(code)
  {
    if code == "go-native" { PrintableToken("go-native"); }
    else if code == "go" { PrintableToken("go"); }
    else if code == "tinygo" { PrintableToken("tinygo"); }
    else if code == "fzf-for-js" { PrintableToken("fzf-for-js"); }
    else if code == "gopherjs" { PrintableToken("gopherjs"); }
    else if code == "go-debugnogc" { PrintableToken("go-debugnogc"); }
    else if code == "tinygo-leakinggc" { PrintableToken("tinygo-leakinggc"); }
    else { assert code == "go-native-nogc"; PrintableToken(code); }
  }

  lemma RawCodeToken(v: Variant, c: Config)
    requires ValidConfig(v, c)
    ensures IsToken(RawCode(c))
  {
    CodeToken(v, c.code);
    if c.browser.Some? {
      var b := c.browser.value;
      var d := "-" + b;
      if b == "edge" { PrintableToken("-edge"); }
      else if b == "safari" { PrintableToken("-safari"); }
      else if b == "firefox" { PrintableToken("-firefox"); }
      else { assert b == "chrome"; PrintableToken("-chrome"); }
      TokenConcat(c.code, d);
      assert RawCode(c) == c.code + d;
    }
  }

  /** What the `fzf-type: ` line of a run with configuration `c` decodes to. */
  function TypeDecoded(v: Variant, c: Config): Decoded
    requires ValidConfig(v, c)
  {
    Decoded(Label(v, c), if v == Aug16 then None else Some(c.browser.Some?))
  }

  /** The `fzf-type: ` line starts with its prefix. */
  lemma TypeTextStarts(c: Config)
    ensures StartsWith(TypeText(c), TypePrefix)
  {
    JoinTwo("fzf-type:", RawCode(c));
    TypeWords();
    StartsWithWord(TypePrefix, "fzf-type:", RawCode(c));
  }

  /** The `fzf-type: ` line decodes to the configuration's label. */
  lemma TypeFieldOfText(v: Variant, c: Config)
    requires ValidConfig(v, c)
    ensures StartsWith(TypeText(c), TypePrefix)
    ensures TypeField(v, TypeText(c))
            == Success(Decoded(Label(v, c), if v == Aug16 then None else Some(c.browser.Some?)))
  {
    TypeTextStarts(c);
    JoinTwo("fzf-type:", RawCode(c));
    TypeWords();
    RawCodeToken(v, c);
    SecondFieldOf(v, "fzf-type:", RawCode(c));
    DecodeRawCode(v, c);
  }

  lemma TypeWords()
    ensures TypePrefix == "fzf-type:" + " " && IsToken("fzf-type:")
  {
    PrintableToken("fzf-type:");
  }

  lemma JoinTwo(w: string, x: string)
    ensures Join(" ", [w, x]) == w + " " + x
  {
    assert [w, x][1..] == [x];
  }

  lemma StartsWithWord(p: string, w: string, x: string)
    requires p == w + " "
    ensures StartsWith(w + " " + x, p)
  {
    assert (w + " " + x)[..|p|] == p;
  }

  /** `line.split()[1]` of two fields is the second. */
  lemma SecondFieldOf(v: Variant, w: string, x: string)
    requires IsToken(w) && IsToken(x)
    ensures TypeField(v, w + " " + x) == DecodeType(v, x)
  {
    SplitConsRun(w, " ", x);
    SplitToken(x);
  }

  lemma JoinCons(w: string, ws: seq<string>)
    requires |ws| > 0
    ensures Join(" ", [w] + ws) == w + " " + Join(" ", ws)
  {
    assert ([w] + ws)[1..] == ws;
  }

  lemma StartsWithConcat(p: string, r: string)
    ensures StartsWith(p + r, p)
  {
    assert (p + r)[..|p|] == p;
  }

  /** Four strings joined, grouped either way. */
  lemma Regroup(a: string, b: string, c: string, d: string, j: string)
    ensures a + b + (c + d + j) == (a + b + c + d) + j
  {
  }

  lemma LoadWords()
    ensures LoadPrefix + " " == "lines.txt" + " " + "loaded:" + " "
    ensures IsToken("lines.txt") && IsToken("loaded:") && IsToken("lines") && IsToken("in")
  {
    PrintableToken("lines.txt");
    PrintableToken("loaded:");
    PrintableToken("lines");
    PrintableToken("in");
  }

  lemma InitWords()
    ensures InitPrefix == "Fzf" + " " + "initialized" + " "
    ensures IsToken("Fzf") && IsToken("initialized") && IsToken("in")
  {
    PrintableToken("Fzf");
    PrintableToken("initialized");
    PrintableToken("in");
  }

  /** The `lines.txt loaded:` line starts with its prefix. */
  lemma LoadTextStarts(nrlines: int, loadTimeMs: int)
    ensures StartsWith(LoadText(nrlines, loadTimeMs), LoadPrefix)
  {
    var more := [IntToStr(nrlines), "lines", "in", IntToStr(loadTimeMs)];
    var ws := ["lines.txt", "loaded:"] + more;
    var j := Join(" ", more);
    LoadWords();
    JoinCons("loaded:", more);
    assert ["loaded:"] + more == ws[1..];
    JoinCons("lines.txt", ws[1..]);
    Regroup("lines.txt", " ", "loaded:", " ", j);
    StartsWithConcat(LoadPrefix, " " + j);
  }

  /** The `lines.txt loaded:` line gives back the haystack size and the load time. */
  lemma LoadFieldsOfText(nrlines: int, loadTimeMs: int)
    ensures LoadFields(LoadText(nrlines, loadTimeMs)) == Success((nrlines, loadTimeMs))
  {
    var ws := ["lines.txt", "loaded:"] + [IntToStr(nrlines), "lines", "in", IntToStr(loadTimeMs)];
    LoadWords();
    SplitJoin(ws);
    ParseIntOfIntToStr(nrlines);
    ParseIntOfIntToStr(loadTimeMs);
  }

  /** The `Fzf initialized ` line gives back its last field. */
  lemma InitFieldOfText(sinceStartMs: int)
    ensures StartsWith(InitText(sinceStartMs), InitPrefix)
    ensures InitField(InitText(sinceStartMs)) == Success(sinceStartMs)
  {
    var more := ["in", IntToStr(sinceStartMs)];
    var ws := ["Fzf", "initialized"] + more;
    InitWords();
    SplitJoin(ws);
    ParseIntOfIntToStr(sinceStartMs);
    var j := Join(" ", more);
    JoinCons("initialized", more);
    assert ["initialized"] + more == ws[1..];
    JoinCons("Fzf", ws[1..]);
    Regroup("Fzf", " ", "initialized", " ", j);
    StartsWithConcat(InitPrefix, j);
  }

  /** The resident-set-size line gives back its kbytes. */
  lemma MemoryFieldOfText(kb: int)
    ensures StartsWith(MemoryText(kb), MemoryPrefix)
    ensures MemoryField(MemoryText(kb)) == Success(kb as real)
  {
    StartsWithTwo(MemoryPrefix, " ", IntToStr(kb));
    LastFieldOfLine(MemoryPrefix, kb);
  }

  /** A line ending in a space and a number ends in that number as a field. */
  lemma LastFieldOfLine(a: string, kb: int)
    ensures MemoryField(a + " " + IntToStr(kb)) == Success(kb as real)
  {
    SplitSnocToken(a, IntToStr(kb));
    ParseFloatOfIntToStr(kb);
  }

  lemma StartsWithTwo(p: string, a: string, b: string)
    ensures StartsWith(p + a + b, p)
  {
    assert (p + a + b)[..|p|] == p;
  }

  lemma SearchWords()
    ensures IsToken("results")
  {
    PrintableToken("results");
  }

  /** The search line starts with `Searching for '`. */
  lemma SearchTextStarts(term: string, nrResults: int)
    ensures StartsWith(SearchText(term, nrResults), SearchPrefix)
  {
    StartsWithSix(SearchPrefix, term, "'", " ", IntToStr(nrResults), " ", "results");
  }

  lemma StartsWithSix(p: string, a: string, b: string, c: string, d: string, e: string, f: string)
    ensures StartsWith(p + a + b + c + d + e + f, p)
  {
    assert (p + a + b + c + d + e + f)[..|p|] == p;
  }

  /** The next-to-last field of the search line is the number of results. */
  lemma SearchFieldsOfText(term: string, nrResults: int)
    ensures NrGives(SearchText(term, nrResults), nrResults) == true
  {
    var n := IntToStr(nrResults);
    var r := SearchPrefix + term + "'";
    SearchWords();
    SplitSnocToken(r + " " + n, "results");
    SplitSnocToken(r, n);
    ParseIntOfIntToStr(nrResults);
  }

  lemma TimingWords(nrlines: int)
    ensures IsToken("---") && IsToken(HaystackFile(nrlines))
    ensures TimingPrefix(nrlines) == "---" + " " + HaystackFile(nrlines) + " "
  {
    PrintableToken("---");
    PrintableToken("../");
    PrintableToken(".txt");
    TokenConcat("../", IntToStr(nrlines));
    TokenConcat("../" + IntToStr(nrlines), ".txt");
  }

  /** A token holds no space. */
  lemma TokenNoSpace(t: string)
    requires IsToken(t)
    ensures forall i :: 0 <= i < |t| ==> t[i] != ' '
  {
  }

  /** The timing line starts with the prefix naming the run's haystack file. */
  lemma TimingTextStarts(nrlines: int, timeMs: int, term: string)
    ensures StartsWith(TimingText(nrlines, timeMs, term), TimingPrefix(nrlines))
  {
    var f := HaystackFile(nrlines);
    var y := IntToStr(timeMs) + " " + ("ms" + " " + term);
    TimingWords(nrlines);
    Regroup("---", " ", f, " ", y);
    StartsWithConcat(TimingPrefix(nrlines), y);
  }

  /** The timing line's third field is the search time. */
  lemma TimingFieldsOfText(nrlines: int, timeMs: int, term: string)
    ensures var toks := Split(TimingText(nrlines, timeMs, term));
      |toks| >= 3 && toks[2] == IntToStr(timeMs)
  {
    TimingWords(nrlines);
    ThirdOfTokens("---", HaystackFile(nrlines), IntToStr(timeMs), "ms" + " " + term);
  }

  /** Three tokens joined by single spaces before `r` are its first three fields. */
  lemma ThirdOfTokens(a: string, b: string, c: string, r: string)
    requires IsToken(a) && IsToken(b) && IsToken(c)
    ensures var toks := Split(a + " " + (b + " " + (c + " " + r)));
      |toks| >= 3 && toks[2] == c
  {
    SplitConsRun(a, " ", b + " " + (c + " " + r));
    SplitConsRun(b, " ", c + " " + r);
    SplitConsRun(c, " ", r);
  }

  /** What follows the timing line's fourth space is the term. */
  lemma TimingTermOfText(nrlines: int, timeMs: int, term: string)
    ensures LastPiece(TimingText(nrlines, timeMs, term), ' ', 4) == term
  {
    var f, t := HaystackFile(nrlines), IntToStr(timeMs);
    var z := "ms" + " " + term;
    var y := t + " " + z;
    TimingWords(nrlines);
    PrintableToken("ms");
    TokenNoSpace("---");
    TokenNoSpace(f);
    TokenNoSpace(t);
    TokenNoSpace("ms");
    LastPieceCons("---", ' ', f + " " + y, 3);
    LastPieceCons(f, ' ', y, 2);
    LastPieceCons(t, ' ', z, 1);
    LastPieceCons("ms", ' ', term, 0);
  }

  lemma HashWords()
    ensures IsToken("hash:") && HashPrefix == "hash:" + " "
  {
    PrintableToken("hash:");
  }

  /** The hash line gives back a hash of at most five characters. */
  lemma HashFieldOfText(h: string)
    requires IsToken(h) && |h| <= 5
    ensures StartsWith(HashText(h), HashPrefix)
    ensures var toks := Split(HashText(h)); |toks| >= 2 && Take5(toks[1]) == h
  {
    HashWords();
    SplitConsRun("hash:", " ", h);
    SplitToken(h);
    StartsWithConcat(HashPrefix, h);
  }

  lemma GoTimeWords()
    ensures IsToken("+++") && IsToken("filename")
    ensures GoTimePrefix == "+++" + " " + "filename" + " "
  {
    PrintableToken("+++");
    PrintableToken("filename");
  }

  /** The "+++" line's third field is the secondary search time. */
  lemma GoTimeFieldOfText(timeMs: int)
    ensures StartsWith(GoTimeText(timeMs), GoTimePrefix)
    ensures var toks := Split(GoTimeText(timeMs));
      |toks| >= 3 && ParseInt(toks[2]) == Some(timeMs)
  {
    var t := IntToStr(timeMs);
    GoTimeWords();
    Regroup("+++", " ", "filename", " ", t);
    SplitConsRun("+++", " ", "filename" + " " + t);
    SplitConsRun("filename", " ", t);
    SplitToken(t);
    ParseIntOfIntToStr(timeMs);
    StartsWithConcat(GoTimePrefix, t);
  }

  // ---- the stack ----

  lemma {:induction false} ReverseAppend<T>(a: seq<T>, b: seq<T>)
    ensures Reverse(a + b) == Reverse(b) + Reverse(a)
    decreases |a|
  {
    if |a| == 0 {
      assert a + b == b;
      assert Reverse(b) + Reverse(a) == Reverse(b);
    } else {
      assert (a + b)[1..] == a[1..] + b;
      assert (a + b)[0] == a[0];
      ReverseAppend(a[1..], b);
    }
  }

  /** `lines.append(x)` followed by `lines.pop()` gives back `x` and `lines`. */
  lemma Pushed(s: seq<string>, x: string)
    ensures Top(s + [x]) == x && Rest(s + [x]) == s
  {
    assert (s + [x])[..|s|] == s;
  }

  /** The next line is there, and it is neither a hash line nor a "+++" line. */
  predicate Follows(s: seq<string>) {
    |s| > 0 && !StartsWith(Top(s), HashPrefix) && !StartsWith(Top(s), GoTimePrefix)
  }

  /** The lines of one search as they lie on the stack, bottom first. */
  function BlockStack(nrlines: int, term: string, e: SearchEntry): seq<string> {
    GoLines(e)
    + HashLines(e)
    + [TimingText(nrlines, e.searchTimeMs, term), SearchText(term, e.nrResults)]
  }

  /** A sequence of at most one element is its own reverse. */
  lemma ReverseShort<T>(h: seq<T>)
    requires |h| <= 1
    ensures Reverse(h) == h
  {
    if |h| == 1 { assert h[1..] == []; }
  }

  lemma ReversePair<T>(a: T, b: T)
    ensures Reverse([a, b]) == [b, a]
  {
    assert [a, b][1..] == [b];
    assert Reverse([b]) == [b] by { assert [b][1..] == []; }
  }

  /** Reversing two lines followed by at most two optional ones. */
  lemma ReverseBlock<T>(a: T, b: T, h: seq<T>, g: seq<T>)
    requires |h| <= 1 && |g| <= 1
    ensures Reverse([a, b] + h + g) == g + h + [b, a]
  {
    ReverseAppend([a, b] + h, g);
    ReverseAppend([a, b], h);
    ReversePair(a, b);
    ReverseShort(h);
    ReverseShort(g);
    assert g + (h + [b, a]) == g + h + [b, a];
  }

  lemma ReverseBlockText(nrlines: int, term: string, e: SearchEntry)
    ensures Reverse(BlockText(nrlines, term, e)) == BlockStack(nrlines, term, e)
  {
    ReverseBlock(SearchText(term, e.nrResults), TimingText(nrlines, e.searchTimeMs, term),
                 HashLines(e),
                 GoLines(e));
  }

  /** The timing line on top of the stack gives the search time and the term. */
  lemma TimingLineOfText(nrlines: int, timeMs: int, term: string, s: seq<string>)
    ensures TimingLine(nrlines, s + [TimingText(nrlines, timeMs, term)]) == Success(((timeMs, term), s))
  {
    Pushed(s, TimingText(nrlines, timeMs, term));
    TimingTextStarts(nrlines, timeMs, term);
    TimingFieldsOfText(nrlines, timeMs, term);
    TimingTermOfText(nrlines, timeMs, term);
    ParseIntOfIntToStr(timeMs);
  }

  /** The optional hash and "+++" lines of an entry, read back from the stack. */
  lemma OptionalLinesOfText(e: SearchEntry, s: seq<string>)
    requires EntryWritable(e) && (e.goSearchTimeMs.None? ==> Follows(s))
    ensures var s3 := s + GoLines(e);
      && HashLine(s3 + HashLines(e)) == Success((e.hash, s3))
      && GoTimeLine(s3) == Success((e.goSearchTimeMs, s))
  {
    var s3 := s + GoLines(e);
    if e.goSearchTimeMs.Some? {
      var g := GoTimeText(e.goSearchTimeMs.value);
      Pushed(s, g);
      GoTimeFieldOfText(e.goSearchTimeMs.value);
      assert !StartsWith(g, HashPrefix) by { StartsWithDiffers(g, GoTimePrefix, HashPrefix); }
    } else {
      assert s3 == s;
    }
    if e.hash.Some? {
      Pushed(s3, HashText(e.hash.value));
      HashFieldOfText(e.hash.value);
    } else {
      assert s3 + [] == s3;
    }
  }

  /** What each line of a search block gives back: the number of results
      from the search line, then the timing line, the hash line and the
      "+++" line, each leaving the stack for the next. */
  predicate LinesGive(nrlines: int, line: string, s1: seq<string>, s2: seq<string>,
                      s3: seq<string>, s: seq<string>, term: string, e: SearchEntry) {
    && NrGives(line, e.nrResults)
    && TimingGives(nrlines, s1, s2, term, e)
    && TailGives(s2, s3, s, e)
  }

  /** The next-to-last field of the search line is the number `n`. */
  predicate NrGives(line: string, n: int) {
    var toks := Split(line); |toks| >= 2 && ParseInt(toks[|toks| - 2]) == Some(n)
  }

  /** The timing line on top of `s1` gives the time and the term, leaving `s2`. */
  predicate TimingGives(nrlines: int, s1: seq<string>, s2: seq<string>, term: string, e: SearchEntry) {
    TimingLine(nrlines, s1) == Success(((e.searchTimeMs, term), s2))
  }

  /** The optional hash and go lines on top of `s2` give the entry's values, leaving `s`. */
  predicate TailGives(s2: seq<string>, s3: seq<string>, s: seq<string>, e: SearchEntry) {
    && HashLine(s2) == Success((e.hash, s3))
    && GoTimeLine(s3) == Success((e.goSearchTimeMs, s))
  }

  /** The block after its search line, from what each of its lines gives back. */
  lemma ReadBlockOfLines(nrlines: int, line: string, s1: seq<string>, s2: seq<string>,
                         s3: seq<string>, s: seq<string>, term: string, e: SearchEntry)
    requires LinesGive(nrlines, line, s1, s2, s3, s, term, e) == true
    ensures ReadBlock(nrlines, line, s1) == Block(term, e, s)
  {
    ReadBlockIsBlock(nrlines, line, s1, s2, s3, s, term, e);
    BlockOfLines(nrlines, line, s1, ReadBlock(nrlines, line, s1), s2, s3, s, term, e);
  }

  /** Every line of the block is read without an error. */
  lemma ReadBlockIsBlock(nrlines: int, line: string, s1: seq<string>, s2: seq<string>,
                         s3: seq<string>, s: seq<string>, term: string, e: SearchEntry)
    requires LinesGive(nrlines, line, s1, s2, s3, s, term, e) == true
    ensures ReadBlock(nrlines, line, s1).Block?
  {
    assert LinesRead(nrlines, line, s1);
  }

  /** A block read from these lines carries what each of them gives back. */
  lemma BlockOfLines(nrlines: int, line: string, s1: seq<string>, b: Block, s2: seq<string>,
                     s3: seq<string>, s: seq<string>, term: string, e: SearchEntry)
    requires b.Block? && BlockLines(nrlines, line, s1, b) == true
    requires LinesGive(nrlines, line, s1, s2, s3, s, term, e) == true
    ensures b == Block(term, e, s)
  {
  }

  /** Stack `s` with the optional lines, the timing line and the search line on top. */
  lemma BlockStackShape(s: seq<string>, g: seq<string>, h: seq<string>, t: string, l: string)
    ensures s + (g + h + [t, l]) == (s + g + h + [t]) + [l]
  {
  }

  /** `popuntilstartmatch` stops at once on a matching top line. */
  lemma PopMatchTop(s: seq<string>, line: string, start: string)
    requires StartsWith(line, start)
    ensures PopUntilStartMatch(s + [line], start) == Match(line, s)
  {
    Pushed(s, line);
  }

  /** A search block whose search line is on top is read by `ReadBlock`. */
  lemma SearchBlockOfLines(nrlines: int, line: string, s1: seq<string>, b: Block)
    requires StartsWith(line, SearchPrefix) && b.Block? && ReadBlock(nrlines, line, s1) == b
    ensures SearchBlock(nrlines, s1 + [line]) == b
  {
    PopMatchTop(s1, line, SearchPrefix);
  }

  /** Below the search line, the timing line and the optional lines give
      back the entry and the term. */
  lemma ReadBlockOfText(nrlines: int, term: string, e: SearchEntry, s: seq<string>)
    requires EntryWritable(e) && (e.goSearchTimeMs.None? ==> Follows(s))
    ensures ReadBlock(nrlines, SearchText(term, e.nrResults),
                      s + GoLines(e) + HashLines(e) + [TimingText(nrlines, e.searchTimeMs, term)])
            == Block(term, e, s)
  {
    var s3 := s + GoLines(e);
    var s2 := s3 + HashLines(e);
    var line := SearchText(term, e.nrResults);
    var s1 := s2 + [TimingText(nrlines, e.searchTimeMs, term)];
    TailGivesOfText(e, s);
    SearchFieldsOfText(term, e.nrResults);
    TimingGivesOfText(nrlines, term, e, s2);
    LinesGiveOfParts(nrlines, line, s1, s2, s3, s, term, e);
    ReadBlockOfLines(nrlines, line, s1, s2, s3, s, term, e);
  }

  lemma TailGivesOfText(e: SearchEntry, s: seq<string>)
    requires EntryWritable(e) && (e.goSearchTimeMs.None? ==> Follows(s))
    ensures TailGives(s + GoLines(e) + HashLines(e), s + GoLines(e), s, e) == true
  {
    OptionalLinesOfText(e, s);
  }

  lemma TimingGivesOfText(nrlines: int, term: string, e: SearchEntry, s2: seq<string>)
    ensures TimingGives(nrlines, s2 + [TimingText(nrlines, e.searchTimeMs, term)], s2, term, e) == true
  {
    TimingLineOfText(nrlines, e.searchTimeMs, term, s2);
  }

  lemma LinesGiveOfParts(nrlines: int, line: string, s1: seq<string>, s2: seq<string>,
                         s3: seq<string>, s: seq<string>, term: string, e: SearchEntry)
    requires NrGives(line, e.nrResults) == true
    requires TimingGives(nrlines, s1, s2, term, e) == true
    requires TailGives(s2, s3, s, e) == true
    ensures LinesGive(nrlines, line, s1, s2, s3, s, term, e) == true
  {
  }

  /** One search's lines on top of the stack give back its term and entry. */
  lemma SearchBlockOfText(nrlines: int, term: string, e: SearchEntry, s: seq<string>)
    requires EntryWritable(e) && (e.goSearchTimeMs.None? ==> Follows(s))
    ensures SearchBlock(nrlines, s + BlockStack(nrlines, term, e)) == Block(term, e, s)
  {
    var t := TimingText(nrlines, e.searchTimeMs, term);
    var line := SearchText(term, e.nrResults);
    BlockStackShape(s, GoLines(e), HashLines(e), t, line);
    SearchTextStarts(term, e.nrResults);
    ReadBlockOfText(nrlines, term, e, s);
    SearchBlockOfLines(nrlines, line, s + GoLines(e) + HashLines(e) + [t], Block(term, e, s));
  }

  /** A search line on top is neither a hash line nor a "+++" line. */
  lemma SearchLineFollows(s: seq<string>)
    requires |s| > 0 && StartsWith(Top(s), SearchPrefix)
    ensures Follows(s)
  {
    StartsWithDiffers(Top(s), SearchPrefix, HashPrefix);
    StartsWithDiffers(Top(s), SearchPrefix, GoTimePrefix);
  }

  lemma StackTop<T>(s: seq<T>, r: seq<T>, below: seq<T>, x: T)
    requires r == below + [x]
    ensures |s + r| > 0 && (s + r)[|s + r| - 1] == x
  {
  }

  /** The searches' lines, on the stack, end with the first one's search line. */
  lemma BlocksStack(nrlines: int, es: SearchTable)
    requires |es| > 0
    ensures Reverse(BlocksText(nrlines, es))
            == Reverse(BlocksText(nrlines, es[1..])) + BlockStack(nrlines, es[0].0, es[0].1)
  {
    ReverseAppend(BlockText(nrlines, es[0].0, es[0].1), BlocksText(nrlines, es[1..]));
    ReverseBlockText(nrlines, es[0].0, es[0].1);
  }

  /** The search line is the top of a search's lines. */
  lemma BlockStackTop(nrlines: int, term: string, e: SearchEntry)
    ensures exists below :: BlockStack(nrlines, term, e) == below + [SearchText(term, e.nrResults)]
  {
    var g := GoLines(e);
    var h := HashLines(e);
    var t := TimingText(nrlines, e.searchTimeMs, term);
    BlockStackShape([], g, h, t, SearchText(term, e.nrResults));
    assert [] + (g + h + [t, SearchText(term, e.nrResults)]) == BlockStack(nrlines, term, e);
  }

  /** With searches still to read, the next line is a search line. */
  lemma BlocksFollow(nrlines: int, es: SearchTable, s: seq<string>)
    requires |es| > 0
    ensures |s + Reverse(BlocksText(nrlines, es))| > 0
    ensures Top(s + Reverse(BlocksText(nrlines, es))) == SearchText(es[0].0, es[0].1.nrResults)
  {
    var line := SearchText(es[0].0, es[0].1.nrResults);
    BlocksStack(nrlines, es);
    BlockStackTop(nrlines, es[0].0, es[0].1);
    var top :| BlockStack(nrlines, es[0].0, es[0].1) == top + [line];
    StackTop(s, Reverse(BlocksText(nrlines, es)), Reverse(BlocksText(nrlines, es[1..])) + top, line);
  }

  /** A key of a table with distinct keys that is not its first is not in the table's head. */
  lemma NewKey(table: SearchTable, es: SearchTable)
    requires |es| > 0 && DistinctKeys(table + es)
    ensures !HasKey(table, es[0].0)
  {
    var t := table + es;
    forall i | 0 <= i < |table| ensures Keys(table)[i] != es[0].0 {
      assert t[i].0 == table[i].0 && t[|table|].0 == es[0].0;
    }
  }

  /** The last search is "hello world": the table then holds it. */
  lemma TableLast(table: SearchTable, es: SearchTable)
    requires |es| == 1 && LastKeyIs(es, HelloWorld)
    ensures table + [es[0]] == table + es && HasKey(table + es, HelloWorld)
  {
    assert Keys(table + es)[|table|] == HelloWorld;
  }

  /** A search before the last is not "hello world", and the rest of the
      searches still fit the table with it added. */
  lemma TableStep(table: SearchTable, es: SearchTable)
    requires |es| > 1 && LastKeyIs(es, HelloWorld) && DistinctKeys(table + es)
    requires !HasKey(table, HelloWorld)
    ensures var t := table + [es[0]];
      && !HasKey(t, HelloWorld) && t + es[1..] == table + es
      && DistinctKeys(t + es[1..]) && LastKeyIs(es[1..], HelloWorld)
  {
    var t := table + [es[0]];
    assert es[0].0 != HelloWorld by {
      assert (table + es)[|table|].0 == es[0].0;
      assert (table + es)[|table| + |es| - 1].0 == HelloWorld;
    }
    assert Keys(t) == Keys(table) + [es[0].0];
    assert t + es[1..] == table + es;
  }

  lemma WritableTail(es: SearchTable)
    requires |es| > 0 && forall i :: 0 <= i < |es| ==> EntryWritable(es[i].1)
    ensures EntryWritable(es[0].1) && forall i :: 0 <= i < |es[1..]| ==> EntryWritable(es[1..][i].1)
  {
    forall i | 0 <= i < |es[1..]| ensures EntryWritable(es[1..][i].1) {
      assert es[1..][i] == es[i + 1];
    }
  }

  /** One turn of the search loop that reads a new term. */
  lemma SearchLoopStep(nrlines: int, s: seq<string>, table: SearchTable, term: string,
                       e: SearchEntry, s1: seq<string>)
    requires !HasKey(table, HelloWorld) && !HasKey(table, term)
    requires SearchBlock(nrlines, s) == Block(term, e, s1)
    ensures SearchLoop(nrlines, s, table) == SearchLoop(nrlines, s1, table + [(term, e)])
  {
  }

  /** Below the first search's lines lies a line that is neither a hash nor
      a go line, unless that search printed a "+++" line. */
  lemma BelowFirstFollows(nrlines: int, es: SearchTable, s: seq<string>)
    requires |es| > 0
    requires es[|es| - 1].1.goSearchTimeMs.None? ==> Follows(s)
    ensures es[0].1.goSearchTimeMs.None? ==> Follows(s + Reverse(BlocksText(nrlines, es[1..])))
  {
    if |es| == 1 {
      assert es[1..] == [];
      assert s + Reverse(BlocksText(nrlines, es[1..])) == s;
    } else {
      BlocksFollow(nrlines, es[1..], s);
      SearchTextStarts(es[1].0, es[1].1.nrResults);
      SearchLineFollows(s + Reverse(BlocksText(nrlines, es[1..])));
    }
  }

  /** What the loop needs of the searches still to read, the table so far
      and what lies below the searches' lines. */
  predicate LoopReady(es: SearchTable, table: SearchTable, s: seq<string>) {
    && LastKeyIs(es, HelloWorld) && DistinctKeys(table + es) && !HasKey(table, HelloWorld)
    && (forall i :: 0 <= i < |es| ==> EntryWritable(es[i].1))
    && (es[|es| - 1].1.goSearchTimeMs.None? ==> Follows(s))
  }

  /** After a search that is not the last, the rest still fit the table with it added. */
  lemma LoopReadyTail(es: SearchTable, table: SearchTable, s: seq<string>)
    requires LoopReady(es, table, s) == true && |es| > 1
    ensures LoopReady(es[1..], table + [es[0]], s) == true
    ensures table + [es[0]] + es[1..] == table + es
  {
    TableStep(table, es);
    WritableTail(es);
    assert es[|es| - 1] == es[1..][|es[1..]| - 1];
  }

  /** After the last search, "hello world", the loop is done. */
  lemma LoopReadyLast(nrlines: int, es: SearchTable, table: SearchTable, s: seq<string>)
    requires LoopReady(es, table, s) == true && |es| == 1
    ensures SearchLoop(nrlines, s + Reverse(BlocksText(nrlines, es[1..])), table + [es[0]]) == Done(table + es, s)
  {
    assert es[1..] == [];
    assert s + Reverse(BlocksText(nrlines, es[1..])) == s;
    TableLast(table, es);
  }

  /** The first search's lines lie on top and read back as its block. */
  lemma FirstBlock(nrlines: int, es: SearchTable, table: SearchTable, s: seq<string>)
    requires LoopReady(es, table, s) == true
    ensures SearchBlock(nrlines, s + Reverse(BlocksText(nrlines, es)))
            == Block(es[0].0, es[0].1, s + Reverse(BlocksText(nrlines, es[1..])))
  {
    var s1 := s + Reverse(BlocksText(nrlines, es[1..]));
    BlocksOnStack(nrlines, es, s);
    BelowFirstFollows(nrlines, es, s);
    assert EntryWritable(es[0].1);
    SearchBlockOfText(nrlines, es[0].0, es[0].1, s1);
  }

  /** The first search's lines lie on top of the later searches' lines. */
  lemma BlocksOnStack(nrlines: int, es: SearchTable, s: seq<string>)
    requires |es| > 0
    ensures s + Reverse(BlocksText(nrlines, es))
            == s + Reverse(BlocksText(nrlines, es[1..])) + BlockStack(nrlines, es[0].0, es[0].1)
  {
    BlocksStack(nrlines, es);
  }

  /** One turn of the loop reads the first search back into the table. */
  lemma SearchLoopTurn(nrlines: int, es: SearchTable, table: SearchTable, s: seq<string>)
    requires LoopReady(es, table, s) == true
    ensures SearchLoop(nrlines, s + Reverse(BlocksText(nrlines, es)), table)
            == SearchLoop(nrlines, s + Reverse(BlocksText(nrlines, es[1..])), table + [es[0]])
  {
    FirstBlock(nrlines, es, table, s);
    NewKey(table, es);
    SearchLoopStep(nrlines, s + Reverse(BlocksText(nrlines, es)), table, es[0].0, es[0].1,
                   s + Reverse(BlocksText(nrlines, es[1..])));
  }

  /** The search loop reads back every search of the run, in order, and stops
      right after "hello world". */
  lemma {:induction false} SearchLoopOfText(nrlines: int, es: SearchTable, table: SearchTable, s: seq<string>)
    requires LoopReady(es, table, s)
    ensures SearchLoop(nrlines, s + Reverse(BlocksText(nrlines, es)), table) == Done(table + es, s)
    decreases |es|
  {
    SearchLoopTurn(nrlines, es, table, s);
    if |es| == 1 {
      LoopReadyLast(nrlines, es, table, s);
    } else {
      LoopReadyTail(es, table, s);
      SearchLoopOfText(nrlines, es[1..], table + [es[0]], s);
    }
  }

  // ---- one run ----

  /** A browser run prints no line after its last search unless that search
      printed a "+++" line, so it can end a file only then. */
  predicate EndsFile(log: RunLog) {
    log.config.browser.Some? ==>
      |log.searches| > 0 && log.searches[|log.searches| - 1].1.goSearchTimeMs.Some?
  }

  /** What lies below a run's lines: nothing, or the next run's banner. */
  predicate RunEnds(log: RunLog, rest: seq<string>) {
    if rest == [] then EndsFile(log) else IsBanner(Top(rest))
  }

  lemma LastKeyHas(t: SearchTable, k: string)
    requires LastKeyIs(t, k)
    ensures HasKey(t, k)
  {
    assert Keys(t)[|t| - 1] == k;
  }

  /** What the memory stage asks of the record built before it. */
  predicate MemoryReady(rec: RunRecord) {
    && rec.fzfType.Some? && rec.nrlines.Some? && rec.loadTimeMs.Some? && rec.initTimeMs.Some?
    && !rec.aborted && HasKey(rec.searches, HelloWorld) && DistinctKeys(rec.searches)
    && LastKeyIs(rec.searches, HelloWorld) && rec.memoryMiB.None?
  }

  /** A run that is not a browser run reads the resident-set-size line on
      top of the stack and records its kbytes divided by 1024. */
  lemma ParseMemoryOfLine(rec: RunRecord, line: string, kb: real, rest: seq<string>)
    requires MemoryReady(rec) == true && rec.browser != Some(true)
    requires StartsWith(line, MemoryPrefix) && MemoryField(line) == Success(kb)
    ensures ParseMemory(rec, rest + [line]) == (Parsed(rec.(memoryMiB := Some(kb / 1024.0))), rest)
  {
    PopMatchTop(rest, line, MemoryPrefix);
    assert MemoryFound(rest + [line]);
  }

  /** The same, with the record that carries the figure already in hand. */
  lemma ParseMemoryRestores(r: RunRecord, line: string, kb: real, rest: seq<string>)
    requires MemoryReady(r.(memoryMiB := None)) == true && r.browser != Some(true)
    requires r.memoryMiB == Some(kb / 1024.0)
    requires StartsWith(line, MemoryPrefix) && MemoryField(line) == Success(kb)
    ensures ParseMemory(r.(memoryMiB := None), rest + [line]) == (Parsed(r), rest)
  {
    ParseMemoryOfLine(r.(memoryMiB := None), line, kb, rest);
    RestoreMemory(r, Some(kb / 1024.0));
  }

  /** What the memory stage needs of the record built before it. */
  lemma RecordBeforeMemory(v: Variant, log: RunLog)
    requires Writable(v, log)
    ensures MemoryReady(Record(v, log).(memoryMiB := None)) == true
    ensures Record(v, log).browser == Some(true) <==> log.config.browser.Some?
  {
  }

  /** Any run but a browser run records its kbytes divided by 1024. */
  lemma MemoryOfRecord(v: Variant, log: RunLog)
    requires Writable(v, log) && log.config.browser.None?
    ensures Record(v, log).memoryMiB == Some(log.memoryKb as real / 1024.0)
  {
  }

  /** A browser run has no memory line and is done. */
  lemma ParseMemoryOfBrowser(v: Variant, log: RunLog, rest: seq<string>)
    requires Writable(v, log) && log.config.browser.Some?
    ensures ParseMemory(Record(v, log).(memoryMiB := None), rest + MemoryLines(log.config, log.memoryKb))
      == (Parsed(Record(v, log)), rest)
  {
    RecordBeforeMemory(v, log);
    assert MemoryLines(log.config, log.memoryKb) == [];
    assert rest + [] == rest;
  }

  lemma RestoreMemory(r: RunRecord, m: Option<real>)
    requires r.memoryMiB == m
    ensures r.(memoryMiB := None).(memoryMiB := m) == r
  {
  }

  /** Any other run reads its resident-set-size line. */
  lemma ParseMemoryOfMeasured(v: Variant, log: RunLog, rest: seq<string>)
    requires Writable(v, log) && log.config.browser.None?
    ensures ParseMemory(Record(v, log).(memoryMiB := None), rest + [MemoryText(log.memoryKb)])
      == (Parsed(Record(v, log)), rest)
  {
    RecordBeforeMemory(v, log);
    MemoryOfRecord(v, log);
    MemoryFieldOfText(log.memoryKb);
    ParseMemoryRestores(Record(v, log), MemoryText(log.memoryKb), log.memoryKb as real, rest);
  }

  /** The memory stage: a browser run is done, any other run reads its
      resident-set-size line. */
  lemma ParseMemoryOfText(v: Variant, log: RunLog, rest: seq<string>)
    requires Writable(v, log)
    ensures ParseMemory(Record(v, log).(memoryMiB := None), rest + MemoryLines(log.config, log.memoryKb))
      == (Parsed(Record(v, log)), rest)
  {
    if log.config.browser.None? {
      assert MemoryLines(log.config, log.memoryKb) == [MemoryText(log.memoryKb)];
      ParseMemoryOfMeasured(v, log, rest);
    } else {
      ParseMemoryOfBrowser(v, log, rest);
    }
  }

  /** The search stage hands the table the loop read to the memory stage. */
  lemma ParseSearchesOfLoop(rec: RunRecord, s: seq<string>, t: SearchTable, mid: seq<string>)
    requires rec.fzfType.Some? && rec.nrlines.Some? && rec.loadTimeMs.Some? && rec.initTimeMs.Some?
    requires !rec.aborted && rec.searches == [] && rec.memoryMiB.None?
    requires SearchLoop(rec.nrlines.value, s, []) == Done(t, mid)
    ensures ParseSearches(rec, s) == ParseMemory(rec.(searches := t), mid)
  {
  }

  /** The `Fzf initialized ` line on top sets the init time to its last
      field minus the load time. */
  lemma ParseInitOfLine(rec: RunRecord, line: string, x: int, s: seq<string>)
    requires rec.fzfType.Some? && rec.nrlines.Some? && rec.loadTimeMs.Some?
    requires !rec.aborted && rec.searches == [] && rec.memoryMiB.None?
    requires StartsWith(line, InitPrefix) && InitField(line) == Success(x)
    ensures ParseInit(rec, s + [line])
            == ParseSearches(rec.(initTimeMs := Some(x - rec.loadTimeMs.value)), s)
  {
    PopMatchTop(s, line, InitPrefix);
    var n := InitStep(rec, s + [line]);
    assert n.Go? && n.rest == s;
    assert n.rec.initTimeMs == Some(x - rec.loadTimeMs.value);
  }

  /** The `lines.txt loaded:` line on top sets the haystack size and the load time. */
  lemma ParseLoadOfLine(rec: RunRecord, line: string, n: int, t: int, s: seq<string>)
    requires rec.fzfType.Some? && !rec.aborted && rec.searches == [] && rec.memoryMiB.None?
    requires StartsWith(line, LoadPrefix) && LoadFields(line) == Success((n, t))
    ensures ParseLoad(rec, s + [line])
            == ParseInit(rec.(nrlines := Some(n), loadTimeMs := Some(t)), s)
  {
    PopMatchTop(s, line, LoadPrefix);
  }

  /** The `fzf-type: ` line on top starts a fresh record with its decoded label. */
  lemma ParseTypeOfLine(v: Variant, line: string, d: Decoded, s: seq<string>)
    requires StartsWith(line, TypePrefix) && TypeField(v, line) == Success(d)
    ensures ParseAfterBanner(v, s + [line])
            == ParseLoad(Fresh.(fzfType := Some(d.name), browser := d.browser), s)
  {
    PopMatchTop(s, line, TypePrefix);
  }

  /** A banner on top is passed and the run read from the line below it. */
  lemma ParseRunOfBanner(v: Variant, s: seq<string>)
    ensures ParseRun(v, s + [Banner]) == ParseAfterBanner(v, s)
  {
    Pushed(s, Banner);
    assert IsBanner(Banner);
  }

  /** A run's lines on the stack: its memory line, its searches, then the
      init, load, type and banner lines, the banner on top. */
  lemma ReverseRun<T>(a: T, b: T, c: T, d: T, blocks: seq<T>, m: seq<T>, rest: seq<T>)
    requires |m| <= 1
    ensures rest + Reverse([a, b, c, d] + blocks + m) == rest + m + Reverse(blocks) + [d] + [c] + [b] + [a]
  {
    ReverseThree([a, b, c, d], blocks, m);
    ReverseFour(a, b, c, d);
    PushFour(rest, m + Reverse(blocks), a, b, c, d);
  }

  lemma ReverseThree<T>(h: seq<T>, blocks: seq<T>, m: seq<T>)
    requires |m| <= 1
    ensures Reverse(h + blocks + m) == m + Reverse(blocks) + Reverse(h)
  {
    ReverseAppend(h + blocks, m);
    ReverseAppend(h, blocks);
    assert Reverse(m) == m;
  }

  lemma ReverseFour<T>(a: T, b: T, c: T, d: T)
    ensures Reverse([a, b, c, d]) == [d, c, b, a]
  {
    assert [a, b, c, d][1..] == [b, c, d];
    assert [b, c, d][1..] == [c, d];
    assert [c, d][1..] == [d];
    assert Reverse([d]) == [d] by { assert [d][1..] == []; }
    assert Reverse([c, d]) == [d, c];
    assert Reverse([b, c, d]) == [d, c, b];
  }

  lemma PushFour<T>(rest: seq<T>, below: seq<T>, a: T, b: T, c: T, d: T)
    ensures rest + (below + [d, c, b, a]) == rest + below + [d] + [c] + [b] + [a]
  {
  }

  /** Below the last search lies the memory line, the next banner, or, for
      a browser run whose last search printed a "+++" line, nothing. */
  lemma MemoryFollows(log: RunLog, rest: seq<string>)
    requires |log.searches| > 0 && RunEnds(log, rest)
    ensures log.searches[|log.searches| - 1].1.goSearchTimeMs.None? ==>
      Follows(rest + MemoryLines(log.config, log.memoryKb))
  {
    if log.config.browser.None? {
      var line := MemoryText(log.memoryKb);
      MemoryFieldOfText(log.memoryKb);
      Pushed(rest, line);
      StartsWithDiffers(line, MemoryPrefix, HashPrefix);
      StartsWithDiffers(line, MemoryPrefix, GoTimePrefix);
    } else if log.searches[|log.searches| - 1].1.goSearchTimeMs.None? {
      assert rest + [] == rest;
      StartsWithDiffers(Top(rest), Banner, HashPrefix);
      StartsWithDiffers(Top(rest), Banner, GoTimePrefix);
    }
  }

  /** The record the type and load stages build, field by field, is the
      run's record before its init time, searches and memory are read. */
  lemma StagesRecord(v: Variant, log: RunLog, d: Decoded)
    requires ValidConfig(v, log.config)
    requires d == TypeDecoded(v, log.config)
    ensures Fresh.(fzfType := Some(d.name), browser := d.browser)
              .(nrlines := Some(log.nrlines), loadTimeMs := Some(log.loadTimeMs))
            == Record(v, log).(searches := [], memoryMiB := None).(initTimeMs := None)
  {
  }

  /** The searches and the memory line give back the run's record. */
  lemma ParseSearchesOfText(v: Variant, log: RunLog, rest: seq<string>, rec: RunRecord)
    requires Writable(v, log) && RunEnds(log, rest)
    requires rec.fzfType.Some? && rec.nrlines == Some(log.nrlines) && rec.loadTimeMs.Some?
    requires rec.initTimeMs.Some? && !rec.aborted && rec.searches == [] && rec.memoryMiB.None?
    requires rec.(searches := log.searches) == Record(v, log).(memoryMiB := None)
    ensures ParseSearches(rec, rest + MemoryLines(log.config, log.memoryKb)
                                    + Reverse(BlocksText(log.nrlines, log.searches)))
            == (Parsed(Record(v, log)), rest)
  {
    var s0 := rest + MemoryLines(log.config, log.memoryKb);
    var es := log.searches;
    LastKeyHas(es, HelloWorld);
    MemoryFollows(log, rest);
    assert [] + es == es;
    SearchLoopOfText(log.nrlines, es, [], s0);
    ParseSearchesOfLoop(rec, s0 + Reverse(BlocksText(log.nrlines, es)), es, s0);
    ParseMemoryOfText(v, log, rest);
  }

  /** A record with its searches cleared and its memory figure unread. */
  lemma RestoreSearches(r: RunRecord)
    ensures r.(searches := [], memoryMiB := None).(searches := r.searches) == r.(memoryMiB := None)
  {
  }

  /** A banner, a type line and a load line on top start a record with the
      decoded label, the haystack size and the load time. */
  lemma ParseHeadOfLines(v: Variant, ty: string, d: Decoded, ld: string, n: int, t: int, s: seq<string>)
    requires StartsWith(ty, TypePrefix) && TypeField(v, ty) == Success(d)
    requires StartsWith(ld, LoadPrefix) && LoadFields(ld) == Success((n, t))
    ensures ParseRun(v, s + [ld] + [ty] + [Banner])
            == ParseInit(Fresh.(fzfType := Some(d.name), browser := d.browser)
                           .(nrlines := Some(n), loadTimeMs := Some(t)), s)
  {
    ParseRunOfBanner(v, s + [ld] + [ty]);
    ParseTypeOfLine(v, ty, d, s + [ld]);
    ParseLoadOfLine(Fresh.(fzfType := Some(d.name), browser := d.browser), ld, n, t, s);
  }

  /** An init line carrying the load time plus the init time fills in the init time. */
  lemma ParseInitOfSum(h: RunRecord, it: string, t: int, x: int, s: seq<string>)
    requires h.fzfType.Some? && h.nrlines.Some? && h.loadTimeMs == Some(t) && h.initTimeMs == Some(x)
    requires !h.aborted && h.searches == [] && h.memoryMiB.None?
    requires InitGives(it, t + x) == true
    ensures ParseInit(h.(initTimeMs := None), s + [it]) == ParseSearches(h, s)
  {
    ParseInitOfLine(h.(initTimeMs := None), it, t + x, s);
    assert h.(initTimeMs := None).(initTimeMs := Some(x)) == h;
  }

  /** The type line starts with `fzf-type: ` and decodes to `d`. */
  predicate TypeGives(v: Variant, ty: string, d: Decoded) {
    StartsWith(ty, TypePrefix) && TypeField(v, ty) == Success(d)
  }

  /** The load line starts with `lines.txt loaded:` and gives `n` and `t`. */
  predicate LoadGives(ld: string, n: int, t: int) {
    StartsWith(ld, LoadPrefix) && LoadFields(ld) == Success((n, t))
  }

  /** The init line starts with `Fzf initialized ` and gives `x`. */
  predicate InitGives(it: string, x: int) {
    StartsWith(it, InitPrefix) && InitField(it) == Success(x)
  }

  lemma TypeGivesOfText(v: Variant, c: Config)
    requires ValidConfig(v, c)
    ensures TypeGives(v, TypeText(c), TypeDecoded(v, c)) == true
  {
    TypeFieldOfText(v, c);
  }

  lemma LoadGivesOfText(nrlines: int, loadTimeMs: int)
    ensures LoadGives(LoadText(nrlines, loadTimeMs), nrlines, loadTimeMs) == true
  {
    LoadTextStarts(nrlines, loadTimeMs);
    LoadFieldsOfText(nrlines, loadTimeMs);
  }

  lemma InitGivesOfText(sinceStartMs: int)
    ensures InitGives(InitText(sinceStartMs), sinceStartMs) == true
  {
    InitFieldOfText(sinceStartMs);
  }

  /** `h` holds the decoded label and flag, size `n`, load time `t` and
      init time `x`, and nothing else yet. */
  predicate RecordGives(h: RunRecord, d: Decoded, n: int, t: int, x: int) {
    && h.fzfType.Some? && h.nrlines == Some(n) && h.loadTimeMs == Some(t) && h.initTimeMs == Some(x)
    && !h.aborted && h.searches == [] && h.memoryMiB.None?
    && Fresh.(fzfType := Some(d.name), browser := d.browser)
         .(nrlines := Some(n), loadTimeMs := Some(t)) == h.(initTimeMs := None)
  }

  /** Before its searches are read, the run's record holds its label and
      flag, size, load time and init time. */
  lemma RecordGivesOfRecord(v: Variant, log: RunLog, d: Decoded)
    requires ValidConfig(v, log.config)
    requires d == TypeDecoded(v, log.config)
    ensures RecordGives(Record(v, log).(searches := [], memoryMiB := None), d,
                        log.nrlines, log.loadTimeMs, log.initTimeMs) == true
  {
    StagesRecord(v, log, d);
  }

  /** A banner, a type, a load and an init line on top give back the
      record `h` whose searches and memory are still to be read. */
  lemma ParseHeaderOfLines(v: Variant, ty: string, d: Decoded, ld: string, it: string,
                           h: RunRecord, n: int, t: int, x: int, s: seq<string>)
    requires TypeGives(v, ty, d) == true && LoadGives(ld, n, t) == true
    requires InitGives(it, t + x) == true && RecordGives(h, d, n, t, x) == true
    ensures h.fzfType.Some? && h.nrlines.Some? && h.loadTimeMs.Some? && h.initTimeMs.Some?
    ensures !h.aborted && h.searches == [] && h.memoryMiB.None?
    ensures ParseRun(v, s + [it] + [ld] + [ty] + [Banner]) == ParseSearches(h, s)
  {
    ParseHeadOfLines(v, ty, d, ld, n, t, s + [it]);
    ParseInitOfSum(h, it, t, x, s);
  }

  /** The banner, type, load and init lines give back the run's
      configuration and timings, and leave its searches on top. */
  lemma ParseHeaderOfText(v: Variant, log: RunLog, s: seq<string>)
    requires ValidConfig(v, log.config)
    ensures ParseRun(v, s + [InitText(log.loadTimeMs + log.initTimeMs)]
                        + [LoadText(log.nrlines, log.loadTimeMs)] + [TypeText(log.config)] + [Banner])
            == ParseSearches(Record(v, log).(searches := [], memoryMiB := None), s)
  {
    var c := log.config;
    var d := TypeDecoded(v, c);
    TypeGivesOfText(v, c);
    LoadGivesOfText(log.nrlines, log.loadTimeMs);
    InitGivesOfText(log.loadTimeMs + log.initTimeMs);
    RecordGivesOfRecord(v, log, d);
    ParseHeaderOfLines(v, TypeText(c), d, LoadText(log.nrlines, log.loadTimeMs),
                       InitText(log.loadTimeMs + log.initTimeMs),
                       Record(v, log).(searches := [], memoryMiB := None),
                       log.nrlines, log.loadTimeMs, log.initTimeMs, s);
  }

  /** Scanning the lines of one run, with the next run's banner or nothing
      below them, gives back that run's record and leaves what lies below. */
  lemma ParseRunOfText(v: Variant, log: RunLog, rest: seq<string>)
    requires Writable(v, log) && RunEnds(log, rest)
    ensures ParseRun(v, rest + Reverse(RunText(log))) == (Parsed(Record(v, log)), rest)
  {
    var c := log.config;
    var ty := TypeText(c);
    var ld := LoadText(log.nrlines, log.loadTimeMs);
    var it := InitText(log.loadTimeMs + log.initTimeMs);
    var bl := BlocksText(log.nrlines, log.searches);
    var s1 := rest + MemoryLines(c, log.memoryKb) + Reverse(bl);
    assert RunText(log) == [Banner, ty, ld, it] + bl + MemoryLines(c, log.memoryKb);
    ReverseRun(Banner, ty, ld, it, bl, MemoryLines(c, log.memoryKb), rest);
    ParseHeaderOfText(v, log, s1);
    RestoreSearches(Record(v, log));
    ParseSearchesOfText(v, log, rest, Record(v, log).(searches := [], memoryMiB := None));
  }

  // ---- a whole file ----

  /** Every run in `logs` is writable, and the last one can end a file. */
  predicate FileWritable(v: Variant, logs: seq<RunLog>) {
    && (forall i :: 0 <= i < |logs| ==> Writable(v, logs[i]))
    && (|logs| > 0 ==> EndsFile(logs[|logs| - 1]))
  }

  lemma FileWritableTail(v: Variant, logs: seq<RunLog>)
    requires |logs| > 0 && FileWritable(v, logs)
    ensures Writable(v, logs[0]) && FileWritable(v, logs[1..])
    ensures |logs| == 1 ==> EndsFile(logs[0])
  {
    forall i | 0 <= i < |logs[1..]| ensures Writable(v, logs[1..][i]) {
      assert logs[1..][i] == logs[i + 1];
    }
    if |logs| > 1 {
      assert logs[1..][|logs[1..]| - 1] == logs[|logs| - 1];
    }
  }

  /** The lines of the runs after the first, on the stack, have a banner on top. */
  lemma NextRunOnTop(logs: seq<RunLog>)
    requires |logs| > 0
    ensures |Reverse(LogLines(logs))| > 0 && IsBanner(Top(Reverse(LogLines(logs))))
  {
    var t := RunText(logs[0]);
    ReverseAppend(t, LogLines(logs[1..]));
    assert Reverse(t) == Reverse(t[1..]) + [Banner];
    StackTop(Reverse(LogLines(logs[1..])), Reverse(t), Reverse(t[1..]), Banner);
    assert IsBanner(Banner);
  }

  /** Scanning the stack of several runs' lines gives back their records, in order. */
  lemma {:induction false} LoadLinesOfText(v: Variant, logs: seq<RunLog>)
    requires FileWritable(v, logs)
    ensures LoadLines(v, Reverse(LogLines(logs))) == Success(RecordsOf(v, logs))
    decreases |logs|
  {
    if |logs| == 0 {
      assert Reverse(LogLines(logs)) == [];
      assert SkipToBanner([]).None?;
    } else {
      FileWritableTail(v, logs);
      var rest := Reverse(LogLines(logs[1..]));
      ReverseAppend(RunText(logs[0]), LogLines(logs[1..]));
      if |logs| > 1 {
        NextRunOnTop(logs[1..]);
      } else {
        assert rest == [];
      }
      ParseRunOfText(v, logs[0], rest);
      LoadLinesStep(v, rest + Reverse(RunText(logs[0])), Record(v, logs[0]), rest);
      LoadLinesOfText(v, logs[1..]);
    }
  }

  /** A complete record read off the stack heads the records of the rest. */
  lemma LoadLinesStep(v: Variant, s: seq<string>, rec: RunRecord, rest: seq<string>)
    requires ParseRun(v, s) == (Parsed(rec), rest)
    ensures LoadLines(v, s) == Prepend(rec, LoadLines(v, rest))
  {
  }

  /** The lines a benchmark writes for several runs load back as those runs' records. */
  lemma LoadFileOfText(v: Variant, logs: seq<RunLog>)
    requires FileWritable(v, logs)
    ensures LoadFile(v, LogLines(logs)) == Success(RecordsOf(v, logs))
  {
    LoadLinesOfText(v, logs);
  }

  // ---- all files ----

  /** Every file holds runs the benchmark can write. */
  predicate FilesWritable(v: Variant, files: seq<seq<RunLog>>) {
    forall i :: 0 <= i < |files| ==> FileWritable(v, files[i])
  }

  /** The lines of each file. */
  function FilesLines(files: seq<seq<RunLog>>): seq<seq<string>> {
    seq(|files|, i requires 0 <= i < |files| => LogLines(files[i]))
  }

  lemma FileValid(v: Variant, logs: seq<RunLog>)
    requires FileWritable(v, logs)
    ensures forall i :: 0 <= i < |logs| ==> ValidConfig(v, logs[i].config)
  {
  }

  /** The records of every file, file after file. */
  function FilesRecords(v: Variant, files: seq<seq<RunLog>>): seq<RunRecord>
    requires FilesWritable(v, files)
  {
    if |files| == 0 then []
    else
      var n := |files| - 1;
      FileValid(v, files[n]);
      FilesRecords(v, files[..n]) + RecordsOf(v, files[n])
  }

  /** Loading files of runs the benchmark wrote gives back all their
      records, in file order and within each file in run order. */
  lemma {:induction false} LoadFilesOfText(v: Variant, files: seq<seq<RunLog>>)
    requires FilesWritable(v, files)
    ensures LoadFiles(v, FilesLines(files)) == Success(FilesRecords(v, files))
    decreases |files|
  {
    if |files| > 0 {
      var n := |files| - 1;
      assert FilesLines(files)[..n] == FilesLines(files[..n]);
      assert FilesLines(files)[n] == LogLines(files[n]);
      LoadFilesOfText(v, files[..n]);
      LoadFileOfText(v, files[n]);
    }
  }
}
