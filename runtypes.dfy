/**
  `TYPE_MAP` of both base.py variants and the decoding of the raw
  `fzf-type:` code into a configuration label.
*/
module RunTypes {
  import opened Wrappers
  import opened PyStr
  import opened Records

  /** Which base.py: 2021/08/16 (no browser runs) or 2021/08/27. */
  datatype Variant = Aug16 | Aug27

  const TypeMap16: map<string, string> := map[
    "go-native" := "Go (native)",
    "go" := "Go (WebAssembly)",
    "tinygo" := "TinyGo",
    "fzf-for-js" := "fzf-for-js",
    "gopherjs" := "GopherJS",
    "go-debugnogc" := "Go (no GC)",
    "tinygo-leakinggc" := "TinyGo (no GC)",
    "go-native-nogc" := "Go (native; no GC)"
  ]

  const TypeMap27: map<string, string> := map[
    "go-native" := "Go (native)",
    "go" := "Go (WebAssembly)",
    "tinygo" := "TinyGo",
    "fzf-for-js" := "fzf-for-js",
    "gopherjs" := "GopherJS",
    "go-debugnogc" := "Go (WebAssembly; no GC)",
    "tinygo-leakinggc" := "TinyGo (no GC)",
    "go-native-nogc" := "Go (native; no GC)"
  ]

  function TypeMap(v: Variant): map<string, string> {
    if v == Aug16 then TypeMap16 else TypeMap27
  }

  /** The browser suffixes the 08/27 parser recognises, in the order it tries them. */
  const Browsers: seq<string> := ["edge", "safari", "firefox", "chrome"]

  /** The first browser `b` such that `raw` ends with "-" + b. */
  function BrowserOf(raw: string, bs: seq<string>): (r: Option<string>)
    ensures r.Some? ==> r.value in bs && EndsWith(raw, "-" + r.value)
    ensures r.None? ==> forall b :: b in bs ==> !EndsWith(raw, "-" + b)
  {
    if |bs| == 0 then None
    else if EndsWith(raw, "-" + bs[0]) then Some(bs[0])
    else BrowserOf(raw, bs[1..])
  }

  /** Index of the last occurrence of `c` in `s`. */
  function LastIndexOf(s: string, c: char): (r: Option<nat>)
    ensures r.None? ==> forall i :: 0 <= i < |s| ==> s[i] != c
    ensures r.Some? ==> r.value < |s| && s[r.value] == c
                        && forall i :: r.value < i < |s| ==> s[i] != c
  {
    if |s| == 0 then None
    else if s[|s| - 1] == c then Some(|s| - 1)
    else LastIndexOf(s[..|s| - 1], c)
  }

  /** The decoded configuration: the label, and the `browser` attribute
      (None when the parser never sets it). */
  datatype Decoded = Decoded(name: string, browser: Option<bool>)

  /** `raw.rsplit("-", 1)` unpacked into `base, browser`. */
  function RSplitDash(raw: string): Result<(string, string), PyError> {
    match LastIndexOf(raw, '-')
    case None => Failure(ValueError)
    case Some(i) => Success((raw[..i], raw[i + 1..]))
  }

  /** The configuration decode of `RunData.__init__`. */
  function DecodeType(v: Variant, raw: string): (r: Result<Decoded, PyError>)
    // 08/27, a browser code: TYPE_MAP[base] + " - " + Browser, or KeyError(base)
    ensures v == Aug27 && BrowserOf(raw, Browsers).Some? ==>
      var b := BrowserOf(raw, Browsers).value;
      var base := raw[..|raw| - |b| - 1];
      && (r.Success? <==> base in TypeMap27)
      && (r.Success? ==> r.value == Decoded(BrowserLabel(TypeMap27[base], b), Some(true)))
      && (r.Failure? ==> r.error == KeyError(base))
    // any other code: TYPE_MAP[raw], or KeyError(raw)
    ensures v == Aug16 || BrowserOf(raw, Browsers).None? ==>
      && (r.Success? <==> raw in TypeMap(v))
      && (r.Success? ==> r.value.name == TypeMap(v)[raw])
      && (r.Success? ==> r.value.browser == if v == Aug16 then None else Some(false))
      && (r.Failure? ==> r.error == KeyError(raw))
  {
    if v == Aug16 then
      if raw in TypeMap16 then Success(Decoded(TypeMap16[raw], None)) else Failure(KeyError(raw))
    else match BrowserOf(raw, Browsers)
      case Some(b) =>
        BrowsersNoDash();
        RSplitAtSuffix(raw, b);
        (match RSplitDash(raw)
         case Failure(e) => Failure(e)
         case Success(parts) =>
           var (base, browser) := parts;
           if base in TypeMap27 then Success(Decoded(BrowserLabel(TypeMap27[base], browser), Some(true)))
           else Failure(KeyError(base)))
      case None =>
        if raw in TypeMap27 then Success(Decoded(TypeMap27[raw], Some(false))) else Failure(KeyError(raw))
  }

  /** `TYPE_MAP[base] + f" - {browser.capitalize()}"` */
  function BrowserLabel(name: string, browser: string): string {
    name + " - " + Capitalize(browser)
  }

  predicate NoDash(s: string) { forall i :: 0 <= i < |s| ==> s[i] != '-' }

  lemma BrowsersNoDash()
    ensures forall b :: b in Browsers ==> NoDash(b)
  {
    assert NoDash("edge") && NoDash("safari") && NoDash("firefox") && NoDash("chrome");
  }

  /** `rsplit("-", 1)` of a string ending in "-" + b, b dash-free, cuts just before b. */
  lemma RSplitAtSuffix(raw: string, b: string)
    requires NoDash(b) && EndsWith(raw, "-" + b)
    ensures RSplitDash(raw) == Success((raw[..|raw| - |b| - 1], b))
  {
    var k := |raw| - |b| - 1;
    assert raw[k] == '-' by { assert raw[k..] == "-" + b; }
    assert forall i :: k < i < |raw| ==> raw[i] == b[i - k - 1] by { assert raw[k..] == "-" + b; }
    assert LastIndexOf(raw, '-') == Some(k);
    assert raw[k + 1..] == b by { assert raw[k..] == "-" + b; }
  }

  /** A configuration as the benchmark names it: a `TYPE_MAP` code and, for
      browser runs, the browser. */
  datatype Config = Config(code: string, browser: Option<string>)

  predicate ValidConfig(v: Variant, c: Config) {
    && c.code in TypeMap(v)
    && (c.browser.Some? ==> v == Aug27 && c.browser.value in Browsers)
  }

  /** The raw code the benchmark writes after "fzf-type: ". */
  function RawCode(c: Config): string {
    match c.browser
    case None => c.code
    case Some(b) => c.code + "-" + b
  }

  /** The label a configuration is reported under. */
  function Label(v: Variant, c: Config): string
    requires ValidConfig(v, c)
  {
    match c.browser
    case None => TypeMap(v)[c.code]
    case Some(b) => BrowserLabel(TypeMap27[c.code], b)
  }

  lemma CodeTails(v: Variant, code: string)
    requires code in TypeMap(v)
    ensures Tail2(code) in {"ve", "go", "js", "gc"}
  {
    assert code == "go-native" || code == "go" || code == "tinygo" || code == "fzf-for-js"
        || code == "gopherjs" || code == "go-debugnogc" || code == "tinygo-leakinggc"
        || code == "go-native-nogc";
  }

  lemma BrowserTails(b: string)
    requires b in Browsers
    ensures Tail2(b) in {"ge", "ri", "ox", "me"}
  {
  }

  lemma NoCodeEndsWithBrowser(v: Variant, code: string)
    requires code in TypeMap(v)
    ensures BrowserOf(code, Browsers).None?
  {
    // the codes end in "ve", "go", "js" or "gc"; the browsers in "ge", "ri", "ox" or "me"
    CodeTails(v, code);
    forall b | b in Browsers ensures !EndsWith(code, "-" + b) {
      BrowserTails(b);
      SuffixTail2(code, b);
    }
  }

  lemma SuffixTail2(s: string, b: string)
    requires |b| >= 2
    ensures EndsWith(s, "-" + b) ==> Tail2(s) == Tail2(b)
  {
    assert EndsWith(s, "-" + b) ==> s[|s| - |b| - 1..] == "-" + b;
  }

  function Tail2(s: string): string {
    if |s| < 2 then s else s[|s| - 2..]
  }

  /** No browser suffix is a suffix of another, so a raw code names at most one browser. */
  lemma BrowserSuffixUnique(raw: string, b1: string, b2: string)
    requires b1 in Browsers && b2 in Browsers
    requires EndsWith(raw, "-" + b1) && EndsWith(raw, "-" + b2)
    ensures b1 == b2
  {
    var n := |raw|;
    assert raw[n - |b1|..] == b1 by { assert raw[n - |b1| - 1..] == "-" + b1; }
    assert raw[n - |b2|..] == b2 by { assert raw[n - |b2| - 1..] == "-" + b2; }
    assert raw[n - 1] == b1[|b1| - 1] == b2[|b2| - 1];
    assert raw[n - 2] == b1[|b1| - 2] == b2[|b2| - 2];
    assert raw[n - 3] == b1[|b1| - 3] == b2[|b2| - 3];
  }

  /** Decoding the raw code of a configuration gives back its label. */
  lemma DecodeRawCode(v: Variant, c: Config)
    requires ValidConfig(v, c)
    ensures DecodeType(v, RawCode(c)).Success?
    ensures DecodeType(v, RawCode(c)).value.name == Label(v, c)
    ensures DecodeType(v, RawCode(c)).value.browser
            == if v == Aug16 then None else Some(c.browser.Some?)
  {
    match c.browser
    case None =>
      if v == Aug27 { NoCodeEndsWithBrowser(v, c.code); }
    case Some(b) =>
      var raw := RawCode(c);
      assert EndsWith(raw, "-" + b) by { assert raw[|raw| - |b| - 1..] == "-" + b; }
      var found := BrowserOf(raw, Browsers).value;
      BrowserSuffixUnique(raw, found, b);
      assert raw[..|raw| - |b| - 1] == c.code;
  }
}
