/**
  The handful of Python `str` operations the log scanner relies on, written
  out with CPython's semantics: `startswith`, `endswith`, `split()` on runs of
  whitespace, `split(sep, maxsplit)[-1]`, `int(...)`, `float(...)` on decimal
  literals, `str(int)`, `capitalize()` and `sep.join(...)`.
*/
module PyStr {
  import opened Wrappers

  predicate StartsWith(s: string, prefix: string) {
    |prefix| <= |s| && s[..|prefix|] == prefix
  }

  predicate EndsWith(s: string, suffix: string) {
    |suffix| <= |s| && s[|s| - |suffix|..] == suffix
  }

  /** Two prefixes that disagree on their first character exclude each other. */
  lemma StartsWithDiffers(s: string, p: string, q: string)
    requires |p| > 0 && |q| > 0 && p[0] != q[0]
    requires StartsWith(s, p)
    ensures !StartsWith(s, q)
  {
    assert s[0] == p[0];
  }

  /** `str.isspace()` for a single character (the separators of `split()`). */
  predicate IsSpace(c: char) {
    c == ' ' || ('\t' <= c <= '\r') || ('\U{1C}' <= c <= '\U{1F}')
    || c == '\U{85}' || c == '\U{A0}' || c == '\U{1680}'
    || ('\U{2000}' <= c <= '\U{200A}') || c == '\U{2028}' || c == '\U{2029}'
    || c == '\U{202F}' || c == '\U{205F}' || c == '\U{3000}'
  }

  /** A field as `split()` returns it: non-empty and free of whitespace. */
  predicate IsToken(t: string) {
    |t| > 0 && forall i :: 0 <= i < |t| ==> !IsSpace(t[i])
  }

  /** Length of the leading run of non-whitespace characters. */
  function TokenLen(s: string): (n: nat)
    ensures n <= |s|
    ensures forall i :: 0 <= i < n ==> !IsSpace(s[i])
    ensures n < |s| ==> IsSpace(s[n])
  {
    if |s| == 0 || IsSpace(s[0]) then 0 else 1 + TokenLen(s[1..])
  }

  /** `s.split()`: the maximal runs of non-whitespace characters, in order. */
  function Split(s: string): (toks: seq<string>)
    decreases |s|
    ensures forall i :: 0 <= i < |toks| ==> IsToken(toks[i])
  {
    if |s| == 0 then []
    else if IsSpace(s[0]) then Split(s[1..])
    else
      var n := TokenLen(s);
      [s[..n]] + Split(s[n..])
  }

  lemma TokenLenOfToken(t: string, r: string)
    requires IsToken(t)
    requires r == [] || IsSpace(r[0])
    ensures TokenLen(t + r) == |t|
  {
    var s := t + r;
    assert forall i :: 0 <= i < |t| ==> s[i] == t[i];
    assert |r| > 0 ==> s[|t|] == r[0];
  }

  predicate AllSpace(w: string) {
    forall i :: 0 <= i < |w| ==> IsSpace(w[i])
  }

  /** Leading whitespace produces no field. */
  lemma {:induction false} SplitSpaces(w: string, r: string)
    requires AllSpace(w)
    ensures Split(w + r) == Split(r)
    decreases |w|
  {
    if |w| == 0 {
      assert w + r == r;
    } else {
      assert (w + r)[0] == w[0];
      assert (w + r)[1..] == w[1..] + r;
      SplitSpaces(w[1..], r);
    }
  }

  /** A token followed by a run of whitespace is the first field, and the
      fields after it are those of what follows the run. */
  lemma SplitConsRun(t: string, w: string, r: string)
    requires IsToken(t) && |w| > 0 && AllSpace(w)
    ensures Split(t + w + r) == [t] + Split(r)
  {
    var s := t + w + r;
    assert (w + r)[0] == w[0];
    TokenLenOfToken(t, w + r);
    assert s == t + (w + r);
    assert s[..|t|] == t;
    assert s[|t|..] == w + r;
    SplitSpaces(w, r);
  }

  /** A token on its own is the only field. */
  lemma SplitToken(t: string)
    requires IsToken(t)
    ensures Split(t) == [t]
  {
    TokenLenOfToken(t, "");
    assert t + "" == t;
    assert t[..|t|] == t && t[|t|..] == "";
  }

  /** A token preceded by a space is the last field of `split()`. */
  lemma {:induction false} SplitSnocToken(r: string, t: string)
    requires IsToken(t)
    ensures Split(r + " " + t) == Split(r) + [t]
    decreases |r|
  {
    var s := r + " " + t;
    if |r| == 0 {
      assert s == " " + t;
      assert s[1..] == t;
      TokenLenOfToken(t, "");
      assert t + "" == t;
      assert t[..|t|] == t && t[|t|..] == "";
    } else if IsSpace(r[0]) {
      assert s[1..] == r[1..] + " " + t;
      SplitSnocToken(r[1..], t);
    } else {
      var n := TokenLen(r);
      var m := TokenLen(s);
      assert s == r + (" " + t);
      assert forall i :: 0 <= i < |r| ==> s[i] == r[i];
      assert s[|r|] == ' ';
      assert m == n;
      assert s[..n] == r[..n];
      assert s[n..] == r[n..] + " " + t;
      SplitSnocToken(r[n..], t);
    }
  }

  /** Index of the first occurrence of `c` in `s`. */
  function IndexOf(s: string, c: char): (r: Option<nat>)
    ensures r.None? ==> forall i :: 0 <= i < |s| ==> s[i] != c
    ensures r.Some? ==> r.value < |s| && s[r.value] == c
                        && forall i :: 0 <= i < r.value ==> s[i] != c
  {
    if |s| == 0 then None
    else if s[0] == c then Some(0)
    else match IndexOf(s[1..], c)
      case None => None
      case Some(i) => Some(i + 1)
  }

  function Min(a: nat, b: nat): nat {
    if a < b then a else b
  }

  /** Number of occurrences of `c` in `s`. */
  function CountOf(s: string, c: char): nat {
    if |s| == 0 then 0 else (if s[0] == c then 1 else 0) + CountOf(s[1..], c)
  }

  lemma {:induction false} CountOfAppend(a: string, b: string, c: char)
    ensures CountOf(a + b, c) == CountOf(a, c) + CountOf(b, c)
  {
    if |a| == 0 {
      assert a + b == b;
    } else {
      assert (a + b)[1..] == a[1..] + b;
      CountOfAppend(a[1..], b, c);
    }
  }

  lemma {:induction false} CountOfNone(a: string, c: char)
    requires forall i :: 0 <= i < |a| ==> a[i] != c
    ensures CountOf(a, c) == 0
  {
    if |a| > 0 {
      CountOfNone(a[1..], c);
    }
  }

  /** `r` is what follows the `k`-th occurrence of `sep` in `s`, or the
      whole of `s` after its last occurrence when there are fewer than `k`. */
  predicate CutAfter(s: string, sep: char, k: nat, r: string) {
    && |r| <= |s| && s[|s| - |r|..] == r
    && CountOf(s[..|s| - |r|], sep) == Min(k, CountOf(s, sep))
    && (|r| < |s| ==> s[|s| - |r| - 1] == sep)
  }

  /** `s.split(sep, maxsplit)[-1]`: what is left after cutting at the first
      `maxsplit` occurrences of `sep` (fewer if `s` has fewer), that is, the
      text after the `maxsplit`-th separator. */
  function LastPiece(s: string, sep: char, maxsplit: nat): (r: string)
    decreases maxsplit
    ensures |r| <= |s|
  {
    if maxsplit == 0 then s
    else match IndexOf(s, sep)
      case None => s
      case Some(i) => LastPiece(s[i + 1..], sep, maxsplit - 1)
  }

  /** The piece is the text after the `maxsplit`-th separator. */
  lemma {:induction false} LastPieceCuts(s: string, sep: char, maxsplit: nat)
    decreases maxsplit
    ensures CutAfter(s, sep, maxsplit, LastPiece(s, sep, maxsplit)) == true
  {
    if maxsplit == 0 || IndexOf(s, sep).None? {
      CutNone(s, sep, maxsplit);
    } else {
      var i := IndexOf(s, sep).value;
      LastPieceCuts(s[i + 1..], sep, maxsplit - 1);
      LastPieceStep(s, sep, maxsplit, i, LastPiece(s[i + 1..], sep, maxsplit - 1));
    }
  }

  lemma LastPieceStep(s: string, sep: char, k: nat, i: nat, r: string)
    requires k > 0 && IndexOf(s, sep) == Some(i) && r == LastPiece(s[i + 1..], sep, k - 1)
    requires CutAfter(s[i + 1..], sep, k - 1, r) == true
    ensures CutAfter(s, sep, k, LastPiece(s, sep, k)) == true
  {
    CutStep(s, sep, k, i, r);
  }

  /** With no cut to make, the piece is the whole string. */
  lemma CutNone(s: string, sep: char, k: nat)
    requires k == 0 || forall j :: 0 <= j < |s| ==> s[j] != sep
    ensures CutAfter(s, sep, k, s)
  {
    if k > 0 {
      CountOfNone(s, sep);
    }
    assert s[..0] == [];
  }

  /** Cutting at a first separator `s[i]` uses up one of the `k` cuts. */
  lemma CutStep(s: string, sep: char, k: nat, i: nat, r: string)
    requires k > 0 && i < |s| && s[i] == sep && forall j :: 0 <= j < i ==> s[j] != sep
    requires CutAfter(s[i + 1..], sep, k - 1, r)
    ensures CutAfter(s, sep, k, r)
  {
    var a, t := s[..i], s[i + 1..];
    SplitAt(s, i);
    var q := |t| - |r|;
    CutShape(a, sep, t, r);
    TakeAcross(a, sep, t, q);
    CountSkip(a, sep, t, q);
    var c := CountOf(t, sep);
    var k0 := CountOf(t[..q], sep);
    assert CountOf(s[..|s| - |r|], sep) == 1 + k0;
    assert CountOf(s, sep) == 1 + c;
    MinStep(CountOf(s[..|s| - |r|], sep), CountOf(s, sep), k, k0, c);
  }

  /** Where the piece sits once a first separator is put back in front. */
  lemma CutShape(a: string, sep: char, t: string, r: string)
    requires |r| <= |t| && t[|t| - |r|..] == r && (|r| < |t| ==> t[|t| - |r| - 1] == sep)
    ensures var s := a + [sep] + t; s[|s| - |r|..] == r && s[|s| - |r| - 1] == sep
  {
    var s := a + [sep] + t;
    assert s[|s| - |r|..] == t[|t| - |r|..];
  }

  lemma MinStep(x: nat, y: nat, m: nat, k: nat, c: nat)
    requires m > 0 && x == 1 + k && k == Min(m - 1, c) && y == 1 + c
    ensures x == Min(m, y)
  {
  }

  lemma TakeAcross<T>(a: seq<T>, x: T, t: seq<T>, q: nat)
    requires q <= |t|
    ensures (a + [x] + t)[..|a| + 1 + q] == a + [x] + t[..q]
  {
  }

  lemma SplitAt<T>(s: seq<T>, i: nat)
    requires i < |s|
    ensures s == s[..i] + [s[i]] + s[i + 1..]
  {
  }

  /** Counting across a first separator. */
  lemma CountSkip(a: string, sep: char, t: string, q: nat)
    requires q <= |t| && forall i :: 0 <= i < |a| ==> a[i] != sep
    ensures CountOf(a + [sep] + t[..q], sep) == 1 + CountOf(t[..q], sep)
    ensures CountOf(a + [sep] + t, sep) == 1 + CountOf(t, sep)
  {
    CountOfNone(a, sep);
    assert CountOf([sep], sep) == 1 by { assert [sep][1..] == []; }
    CountOfAppend(a, [sep], sep);
    CountOfAppend(a + [sep], t[..q], sep);
    CountOfAppend(a + [sep], t, sep);
  }

  /** Cutting at a first separator uses up one split. */
  lemma LastPieceCons(a: string, sep: char, r: string, k: nat)
    requires forall i :: 0 <= i < |a| ==> a[i] != sep
    ensures LastPiece(a + [sep] + r, sep, k + 1) == LastPiece(r, sep, k)
  {
    var s := a + [sep] + r;
    assert s[|a|] == sep;
    assert IndexOf(s, sep) == Some(|a|);
    assert s[|a| + 1..] == r;
  }

  predicate IsDigit(c: char) { '0' <= c <= '9' }

  predicate AllDigits(s: string) { forall i :: 0 <= i < |s| ==> IsDigit(s[i]) }

  /** The value of a string of decimal digits (most significant first). */
  function DigitsValue(s: string): nat
    requires AllDigits(s)
  {
    if |s| == 0 then 0
    else DigitsValue(s[..|s| - 1]) * 10 + (s[|s| - 1] as int - '0' as int)
  }

  /** `int(tok)` for a token (no surrounding whitespace): an optional sign
      followed by one or more decimal digits; anything else is a ValueError. */
  function ParseInt(tok: string): Option<int> {
    if |tok| > 0 && (tok[0] == '-' || tok[0] == '+') then
      var d := tok[1..];
      if |d| > 0 && AllDigits(d) then
        Some(if tok[0] == '-' then -(DigitsValue(d) as int) else DigitsValue(d) as int)
      else None
    else if |tok| > 0 && AllDigits(tok) then Some(DigitsValue(tok))
    else None
  }

  /** `x / 10**k`, one decimal place at a time. */
  function ShiftRight(x: real, k: nat): real {
    if k == 0 then x else ShiftRight(x, k - 1) / 10.0
  }

  /** `float(tok)` for a token written as a decimal literal: an optional sign,
      digits, at most one '.', and at least one digit. */
  function ParseFloat(tok: string): Option<real> {
    var neg := |tok| > 0 && tok[0] == '-';
    var body := if |tok| > 0 && (tok[0] == '-' || tok[0] == '+') then tok[1..] else tok;
    var magnitude: Option<real> :=
      match IndexOf(body, '.')
      case None =>
        if |body| > 0 && AllDigits(body) then Some(DigitsValue(body) as real) else None
      case Some(d) =>
        var whole := body[..d];
        var frac := body[d + 1..];
        if |whole| + |frac| > 0 && AllDigits(whole) && AllDigits(frac) then
          Some(DigitsValue(whole) as real + ShiftRight(DigitsValue(frac) as real, |frac|))
        else None;
    match magnitude
    case None => None
    case Some(m) => Some(if neg then -m else m)
  }

  function DigitChar(d: nat): (c: char)
    requires d < 10
    ensures IsDigit(c) && c as int - '0' as int == d
  {
    ('0' as int + d) as char
  }

  /** `str(n)` for a natural number. */
  function NatToStr(n: nat): (s: string)
    ensures |s| > 0 && AllDigits(s)
  {
    if n < 10 then [DigitChar(n)] else NatToStr(n / 10) + [DigitChar(n % 10)]
  }

  /** `str(n)` for an integer. */
  function IntToStr(n: int): (s: string)
    ensures IsToken(s)
    ensures |s| > 0 && (s[0] == '-' || IsDigit(s[0]))
  {
    var s := if n < 0 then "-" + NatToStr(-n) else NatToStr(n);
    assert forall i :: 0 <= i < |s| ==> s[i] == '-' || IsDigit(s[i]);
    s
  }

  lemma {:induction false} DigitsValueOfNatToStr(n: nat)
    ensures DigitsValue(NatToStr(n)) == n
  {
    var s := NatToStr(n);
    if n >= 10 {
      DigitsValueOfNatToStr(n / 10);
      assert s[..|s| - 1] == NatToStr(n / 10);
    }
  }

  /** `int(str(n)) == n`. */
  lemma ParseIntOfIntToStr(n: int)
    ensures ParseInt(IntToStr(n)) == Some(n)
  {
    var s := IntToStr(n);
    if n < 0 {
      var d := NatToStr(-n);
      DigitsValueOfNatToStr(-n);
      assert s == "-" + d;
      assert s[0] == '-' && s[1..] == d;
    } else {
      var d := NatToStr(n);
      DigitsValueOfNatToStr(n);
      assert s == d && d[0] != '-' && d[0] != '+';
    }
  }

  /** `float(str(n)) == n`. */
  lemma ParseFloatOfIntToStr(n: int)
    ensures ParseFloat(IntToStr(n)) == Some(n as real)
  {
    var s := IntToStr(n);
    var m: nat := if n < 0 then -n else n;
    DigitsValueOfNatToStr(m);
    var body := if n < 0 then s[1..] else s;
    assert body == NatToStr(m);
    assert IndexOf(body, '.') == None;
  }

  predicate IsLower(c: char) { 'a' <= c <= 'z' }

  predicate IsUpper(c: char) { 'A' <= c <= 'Z' }

  function Upper(c: char): char {
    if IsLower(c) then (c as int - 32) as char else c
  }

  function Lower(c: char): char {
    if IsUpper(c) then (c as int + 32) as char else c
  }

  function LowerAll(s: string): (r: string)
    ensures |r| == |s|
    ensures forall i :: 0 <= i < |s| ==> r[i] == Lower(s[i])
  {
    if |s| == 0 then "" else [Lower(s[0])] + LowerAll(s[1..])
  }

  /** `s.capitalize()` on ASCII text: first character upper case, the rest lower case. */
  function Capitalize(s: string): (r: string)
    ensures |r| == |s|
    ensures |s| > 0 ==> r[0] == Upper(s[0])
    ensures forall i :: 0 < i < |s| ==> r[i] == Lower(s[i])
  {
    if |s| == 0 then "" else [Upper(s[0])] + LowerAll(s[1..])
  }

  /** `sep.join(parts)`. */
  function Join(sep: string, parts: seq<string>): string {
    if |parts| == 0 then ""
    else if |parts| == 1 then parts[0]
    else parts[0] + sep + Join(sep, parts[1..])
  }

  /** `s.split(c)` with an explicit one-character separator. */
  function SplitOn(s: string, c: char): (r: seq<string>)
    ensures |r| > 0
    ensures forall i :: 0 <= i < |r| ==> c !in r[i]
  {
    match IndexOf(s, c)
    case None => [s]
    case Some(i) => [s[..i]] + SplitOn(s[i + 1..], c)
  }

  /** A character in neither the separator nor any part is not in the join. */
  lemma {:induction false} JoinAvoids(sep: string, parts: seq<string>, c: char)
    requires c !in sep && forall i :: 0 <= i < |parts| ==> c !in parts[i]
    ensures c !in Join(sep, parts)
  {
    if |parts| > 1 {
      JoinAvoids(sep, parts[1..], c);
    }
  }

  /** Splitting at the separator undoes joining, when no part holds it. */
  lemma {:induction false} SplitOnJoin(c: char, parts: seq<string>)
    requires |parts| > 0 && forall i :: 0 <= i < |parts| ==> c !in parts[i]
    ensures SplitOn(Join([c], parts), c) == parts
  {
    if |parts| > 1 {
      var p, rest := parts[0], Join([c], parts[1..]);
      var s := Join([c], parts);
      assert s == p + [c] + rest;
      assert s[|p|] == c && forall i :: 0 <= i < |p| ==> s[i] == p[i];
      assert IndexOf(s, c) == Some(|p|);
      assert s[..|p|] == p && s[|p| + 1..] == rest;
      SplitOnJoin(c, parts[1..]);
      assert parts == [p] + parts[1..];
    }
  }
}
