/** The price renderer `convert_text_prices` (main.py:130, 141-152): every match
    of `(-?\d+(?:\.\d+)?)\s*\$` in a text is replaced according to the target
    currency. The numeric rendering itself (`float`, `int`, `val * rate`,
    `format_number`) is floating point and is passed in as a `PriceFormat`. */
module Prices {
  import opened Text
  import opened Wrappers

  /** What `\d` is taken to match: ASCII digits and the Arabic-Indic and
      extended Arabic-Indic digits (Python's `\d` also takes every other
      Unicode decimal digit). */
  predicate IsDigit(c: char) {
    ('0' <= c <= '9') || ('\U{0660}' <= c <= '\U{0669}') || ('\U{06F0}' <= c <= '\U{06F9}')
  }

  /** The renderings the floating-point code produces for a matched number
      `num` (the regex group 1): `usd(num)` is `int(val)` or `val` as Python
      prints it, `syp(num, rate)` is `format_number(val * float(rate))`. */
  datatype PriceFormat = PriceFormat(usd: string -> string, syp: (string, real) -> string)

  /** The local-currency label appended after a converted amount. */
  const SypLabel: string := " ل.س"

  /** A text cut into what `re.sub` sees: single characters that no match
      covers, and matches with their group 1 and their whole matched text. */
  datatype Token = Lit(c: char) | Price(number: string, raw: string)

  function DigitRun(t: string, i: nat): (n: nat)
    requires i <= |t|
    ensures i + n <= |t|
    decreases |t| - i
  {
    if i < |t| && IsDigit(t[i]) then 1 + DigitRun(t, i + 1) else 0
  }

  function SpaceRun(t: string, i: nat): (n: nat)
    requires i <= |t|
    ensures i + n <= |t|
    decreases |t| - i
  {
    if i < |t| && IsSpace(t[i]) then 1 + SpaceRun(t, i + 1) else 0
  }

  /** `s` is what `\d+` matches in full. */
  predicate AllDigits(s: string) {
    |s| >= 1 && forall k :: 0 <= k < |s| ==> IsDigit(s[k])
  }

  /** `s` is what `\d+(?:\.\d+)?` matches in full. */
  predicate Unsigned(s: string) {
    || AllDigits(s)
    || exists p :: 0 < p < |s| && s[p] == '.' && AllDigits(s[..p]) && AllDigits(s[p + 1..])
  }

  /** `s` is what group 1, `-?\d+(?:\.\d+)?`, matches in full. */
  predicate Number(s: string) {
    Unsigned(s) || (|s| >= 1 && s[0] == '-' && Unsigned(s[1..]))
  }

  /** `m` is a whole match of the price pattern whose group 1 is `m[..g]`:
      a number, then any whitespace, then `$`. */
  predicate PriceMatch(m: string, g: nat) {
    && g < |m| && m[|m| - 1] == '$'
    && Number(m[..g])
    && forall k :: g <= k < |m| - 1 ==> IsSpace(m[k])
  }

  /** The match of the price pattern that starts at position `i`, if any, as
      (end of group 1, end of match). Each part of the pattern is greedy and
      what follows it can never start with what it consumes, so backtracking
      never finds a match the greedy attempt misses: the match is unique
      (`MatchAtExact`). */
  function MatchAt(t: string, i: nat): (r: Option<(nat, nat)>)
    requires i <= |t|
    ensures r.Some? ==> i < r.value.0 < r.value.1 <= |t| && t[r.value.1 - 1] == '$'
  {
    var j := if i < |t| && t[i] == '-' then i + 1 else i;
    var d := j + DigitRun(t, j);
    if d == j then None
    else
      var f := if d + 1 < |t| && t[d] == '.' && IsDigit(t[d + 1]) then d + 1 + DigitRun(t, d + 1) else d;
      var w := f + SpaceRun(t, f);
      if w < |t| && t[w] == '$' then Some((f, w + 1)) else None
  }

  /** The pattern matches `t[i..e]` with group 1 `t[i..g]` exactly when the
      greedy attempt returns `(g, e)`: the match it finds is the only one,
      and `None` means that no match starts at `i`. */
  lemma MatchAtExact(t: string, i: nat, g: nat, e: nat)
    requires i <= g <= e <= |t|
    ensures PriceMatch(t[i..e], g - i) <==> MatchAt(t, i) == Some((g, e))
  {
    if PriceMatch(t[i..e], g - i) {
      MatchOfShape(t, i, g, e);
    }
    if MatchAt(t, i) == Some((g, e)) {
      MatchAtIsMatch(t, i, g, e);
    }
  }

  /** Where the greedy attempt fails, no match of the pattern starts. */
  lemma NoneMeansNoMatch(t: string, i: nat)
    requires i <= |t| && MatchAt(t, i).None?
    ensures forall e: nat, n: nat :: i <= e <= |t| && n <= e - i ==> !PriceMatch(t[i..e], n)
  {
    forall e: nat, n: nat | i <= e <= |t| && n <= e - i ensures !PriceMatch(t[i..e], n) {
      MatchAtExact(t, i, i + n, e);
    }
  }

  /** What the greedy attempt returns is a match of the pattern. */
  lemma MatchAtIsMatch(t: string, i: nat, g: nat, e: nat)
    requires i <= g <= e <= |t| && MatchAt(t, i) == Some((g, e))
    ensures PriceMatch(t[i..e], g - i)
  {
    var j := if i < |t| && t[i] == '-' then i + 1 else i;
    var d := j + DigitRun(t, j);
    var f := if d + 1 < |t| && t[d] == '.' && IsDigit(t[d + 1]) then d + 1 + DigitRun(t, d + 1) else d;
    var w := f + SpaceRun(t, f);
    GreedyParts(t, i, j, d, f, w);
    assert f == g && w + 1 == e;
    SignedNumber(t, i, j, g, d);
    SpacesThenDollar(t, i, g, e);
  }

  /** The greedy attempt, unfolded, when it succeeds. */
  lemma GreedyParts(t: string, i: nat, j: nat, d: nat, f: nat, w: nat)
    requires i <= |t| && MatchAt(t, i).Some?
    requires j == (if i < |t| && t[i] == '-' then i + 1 else i)
    requires j <= |t| && d == j + DigitRun(t, j)
    requires f == (if d + 1 < |t| && t[d] == '.' && IsDigit(t[d + 1]) then d + 1 + DigitRun(t, d + 1) else d)
    requires f <= |t| && w == f + SpaceRun(t, f)
    ensures d > j && w < |t| && t[w] == '$' && MatchAt(t, i) == Some((f, w + 1))
  {
  }

  /** The integer part, the optional fraction and the optional sign the
      greedy attempt takes make up group 1. */
  lemma SignedNumber(t: string, i: nat, j: nat, f: nat, d: nat)
    requires i <= |t| && j == (if i < |t| && t[i] == '-' then i + 1 else i)
    requires j <= |t| && d == j + DigitRun(t, j) && d > j
    requires f == (if d + 1 < |t| && t[d] == '.' && IsDigit(t[d + 1]) then d + 1 + DigitRun(t, d + 1) else d)
    ensures f <= |t| && Number(t[i..f])
  {
    DigitsFrom(t, j, d);
    if f != d {
      DigitsFrom(t, d + 1, f);
      WithFraction(t, j, d, f);
    }
    if j == i + 1 {
      assert t[i..f][1..] == t[j..f];
    }
  }

  /** A digit run read as a slice. */
  lemma DigitsFrom(t: string, a: nat, b: nat)
    requires a <= |t| && b == a + DigitRun(t, a) && b > a
    ensures AllDigits(t[a..b])
  {
    DigitRunDigits(t, a);
  }

  /** Everything a digit run passes is a digit. */
  lemma {:induction false} DigitRunDigits(t: string, i: nat)
    requires i <= |t|
    ensures forall k :: i <= k < i + DigitRun(t, i) ==> IsDigit(t[k])
    decreases |t| - i
  {
    if i < |t| && IsDigit(t[i]) { DigitRunDigits(t, i + 1); }
  }

  lemma WithFraction(t: string, j: nat, d: nat, f: nat)
    requires j < d < f <= |t| && t[d] == '.' && AllDigits(t[j..d]) && AllDigits(t[d + 1..f])
    ensures Unsigned(t[j..f])
  {
    var u := t[j..f];
    assert u[d - j] == '.' && u[..d - j] == t[j..d] && u[d - j + 1..] == t[d + 1..f];
  }

  /** The whitespace run and the `$` that close the match. */
  lemma SpacesThenDollar(t: string, i: nat, g: nat, e: nat)
    requires i <= g < e <= |t| && e - 1 == g + SpaceRun(t, g) && t[e - 1] == '$'
    requires Number(t[i..g])
    ensures PriceMatch(t[i..e], g - i)
  {
    var m := t[i..e];
    assert m[..g - i] == t[i..g];
    SpaceRunSpaces(t, g);
  }

  /** Everything a whitespace run passes is whitespace. */
  lemma {:induction false} SpaceRunSpaces(t: string, i: nat)
    requires i <= |t|
    ensures forall k :: i <= k < i + SpaceRun(t, i) ==> IsSpace(t[k])
    decreases |t| - i
  {
    if i < |t| && IsSpace(t[i]) { SpaceRunSpaces(t, i + 1); }
  }

  /** A run of exactly `n` digits from `j`, followed by a non-digit or the end. */
  lemma {:induction false} DigitRunExact(t: string, j: nat, n: nat)
    requires j + n <= |t| && forall k :: j <= k < j + n ==> IsDigit(t[k])
    requires j + n == |t| || !IsDigit(t[j + n])
    ensures DigitRun(t, j) == n
    decreases n
  {
    if n > 0 { DigitRunExact(t, j + 1, n - 1); }
  }

  /** A run of exactly `n` whitespace characters from `j`, followed by `$`. */
  lemma {:induction false} SpaceRunExact(t: string, j: nat, n: nat)
    requires j + n < |t| && t[j + n] == '$' && forall k :: j <= k < j + n ==> IsSpace(t[k])
    ensures SpaceRun(t, j) == n
    decreases n
  {
    if n > 0 { SpaceRunExact(t, j + 1, n - 1); }
  }

  /** A match of the pattern is what the greedy attempt finds. */
  lemma MatchOfShape(t: string, i: nat, g: nat, e: nat)
    requires i <= g <= e <= |t| && PriceMatch(t[i..e], g - i)
    ensures MatchAt(t, i) == Some((g, e))
  {
    var j := if t[i] == '-' then i + 1 else i;
    ShapeParts(t, i, g, e);
    SpaceRunExact(t, g, e - 1 - g);
    UnsignedRun(t, j, g);
    GreedyOutcome(t, i, g, e);
  }

  /** A match of `t[i..e]` read back as positions of `t`. */
  lemma ShapeParts(t: string, i: nat, g: nat, e: nat)
    requires i <= g <= e <= |t| && PriceMatch(t[i..e], g - i)
    ensures g < e && t[e - 1] == '$' && forall k :: g <= k < e - 1 ==> IsSpace(t[k])
    ensures !IsDigit(t[g]) && t[g] != '.'
    ensures Unsigned(t[(if t[i] == '-' then i + 1 else i)..g])
  {
    var m := t[i..e];
    assert m[..g - i] == t[i..g];
    forall k | g <= k < e - 1 ensures IsSpace(t[k]) { assert t[k] == m[k - i]; }
    assert t[e - 1] == m[|m| - 1];
    if g < e - 1 { assert IsSpace(t[g]); }
    if t[i] == '-' {
      assert t[i..g][1..] == t[i + 1..g];
      assert !AllDigits(t[i..g]) by { assert !IsDigit(t[i..g][0]); }
      assert !Unsigned(t[i..g]);
    }
  }

  /** The greedy attempt, given where its digit and space runs stop. */
  lemma GreedyOutcome(t: string, i: nat, g: nat, e: nat)
    requires i <= g < e <= |t| && t[e - 1] == '$'
    requires var j := if t[i] == '-' then i + 1 else i;
      var d := j + DigitRun(t, j);
      && d > j
      && g == (if d + 1 < |t| && t[d] == '.' && IsDigit(t[d + 1]) then d + 1 + DigitRun(t, d + 1) else d)
    requires SpaceRun(t, g) == e - 1 - g
    ensures MatchAt(t, i) == Some((g, e))
  {
    var j := if i < |t| && t[i] == '-' then i + 1 else i;
    var d := j + DigitRun(t, j);
    GreedySteps(t, i, j, d, g, g + SpaceRun(t, g));
  }

  lemma GreedySteps(t: string, i: nat, j: nat, d: nat, f: nat, w: nat)
    requires i <= |t| && j == (if i < |t| && t[i] == '-' then i + 1 else i)
    requires j <= |t| && d == j + DigitRun(t, j) && d > j
    requires f == (if d + 1 < |t| && t[d] == '.' && IsDigit(t[d + 1]) then d + 1 + DigitRun(t, d + 1) else d)
    requires f <= |t| && w == f + SpaceRun(t, f) && w < |t| && t[w] == '$'
    ensures MatchAt(t, i) == Some((f, w + 1))
  {
  }

  /** The digits of a number from `j` to `g`, where `t[g]` is neither a digit
      nor a `.`, are what the greedy attempt consumes. */
  lemma UnsignedRun(t: string, j: nat, g: nat)
    requires j <= g < |t| && Unsigned(t[j..g]) && !IsDigit(t[g]) && t[g] != '.'
    ensures var d := j + DigitRun(t, j);
      && d > j
      && g == (if d + 1 < |t| && t[d] == '.' && IsDigit(t[d + 1]) then d + 1 + DigitRun(t, d + 1) else d)
  {
    var u := t[j..g];
    if AllDigits(u) {
      IntegerRun(t, j, g);
    } else {
      var p :| 0 < p < |u| && u[p] == '.' && AllDigits(u[..p]) && AllDigits(u[p + 1..]);
      FractionAt(t, j, g, p);
      FractionalRun(t, j, g, p);
    }
  }

  lemma IntegerRun(t: string, j: nat, g: nat)
    requires j <= g < |t| && AllDigits(t[j..g]) && !IsDigit(t[g]) && t[g] != '.'
    ensures var d := j + DigitRun(t, j);
      && d > j
      && g == (if d + 1 < |t| && t[d] == '.' && IsDigit(t[d + 1]) then d + 1 + DigitRun(t, d + 1) else d)
  {
    DigitsAt(t, j, g);
    DigitRunExact(t, j, g - j);
  }

  /** The `.` of a number's fraction at offset `p`, read back as positions of `t`. */
  lemma FractionAt(t: string, j: nat, g: nat, p: nat)
    requires j <= g <= |t|
    requires 0 < p < g - j && t[j..g][p] == '.' && AllDigits(t[j..g][..p]) && AllDigits(t[j..g][p + 1..])
    ensures t[j + p] == '.' && AllDigits(t[j..j + p]) && AllDigits(t[j + p + 1..g])
  {
    var u := t[j..g];
    assert u[..p] == t[j..j + p] && u[p + 1..] == t[j + p + 1..g];
  }

  lemma FractionalRun(t: string, j: nat, g: nat, p: nat)
    requires j + p < g < |t| && t[j + p] == '.' && AllDigits(t[j..j + p]) && AllDigits(t[j + p + 1..g])
    requires !IsDigit(t[g])
    ensures var d := j + DigitRun(t, j);
      && d > j
      && g == (if d + 1 < |t| && t[d] == '.' && IsDigit(t[d + 1]) then d + 1 + DigitRun(t, d + 1) else d)
  {
    DigitsAt(t, j, j + p);
    DigitRunExact(t, j, p);
    DigitsAt(t, j + p + 1, g);
    DigitRunExact(t, j + p + 1, g - j - p - 1);
  }

  /** A slice that is all digits, read back as positions of `t`. */
  lemma DigitsAt(t: string, a: nat, b: nat)
    requires a <= b <= |t| && AllDigits(t[a..b])
    ensures a < b && forall k :: a <= k < b ==> IsDigit(t[k])
  {
    forall k | a <= k < b ensures IsDigit(t[k]) { assert t[k] == t[a..b][k - a]; }
  }

  /** `re.sub`'s left-to-right scan from position `i`: try a match here; on a
      match continue after it, otherwise keep one character and move on. */
  function Scan(t: string, i: nat): seq<Token>
    requires i <= |t|
    decreases |t| - i
  {
    if i == |t| then []
    else
      var (tok, next) := NextToken(t, i);
      [tok] + Scan(t, next)
  }

  /** One step of the scan at position `i`: the token found there and where
      the scan goes on. The token spells out exactly the text it passes. */
  function NextToken(t: string, i: nat): (r: (Token, nat))
    requires i < |t|
    ensures i < r.1 <= |t| && Raw(r.0) == t[i..r.1]
  {
    match MatchAt(t, i)
    case Some((f, e)) => (Price(t[i..f], t[i..e]), e)
    case None => (Lit(t[i]), i + 1)
  }

  function Tokens(t: string): seq<Token> { Scan(t, 0) }

  /** The text a token stands for in the input. */
  function Raw(tok: Token): string {
    match tok
    case Lit(c) => [c]
    case Price(_, raw) => raw
  }

  function RawAll(toks: seq<Token>): string {
    if toks == [] then [] else Raw(toks[0]) + RawAll(toks[1..])
  }

  /** The replacement `repl` returns for one token (main.py:142-151). */
  function Render(tok: Token, target: string, rate: Option<real>, fmt: PriceFormat): string {
    match tok
    case Lit(c) => [c]
    case Price(num, raw) =>
      if target == "USD" then fmt.usd(num) + "$"
      else if target == "SYP" then
        (match rate
         case None => fmt.usd(num) + "$"
         case Some(r) => fmt.syp(num, r) + SypLabel)
      else raw
  }

  function RenderAll(toks: seq<Token>, target: string, rate: Option<real>, fmt: PriceFormat): string {
    if toks == [] then [] else Render(toks[0], target, rate, fmt) + RenderAll(toks[1..], target, rate, fmt)
  }

  /** `convert_text_prices(text, target_currency, rate)`. */
  function ConvertTextPrices(text: string, target: string, rate: Option<real>, fmt: PriceFormat): string {
    RenderAll(Tokens(text), target, rate, fmt)
  }

  /** The scan covers the text exactly: its tokens put back together are the
      input from position `i` on. */
  lemma {:induction false} ScanCovers(t: string, i: nat)
    requires i <= |t|
    ensures RawAll(Scan(t, i)) == t[i..]
    decreases |t| - i
  {
    if i < |t| {
      var (tok, next) := NextToken(t, i);
      ScanCovers(t, next);
      CoverStep(t, i, next, tok, Scan(t, next));
    }
  }

  /** One token in front of tokens that cover the rest of the text. */
  lemma CoverStep(t: string, i: nat, e: nat, tok: Token, rest: seq<Token>)
    requires i < e <= |t| && Raw(tok) == t[i..e] && RawAll(rest) == t[e..]
    ensures RawAll([tok] + rest) == t[i..]
  {
    RawAllCons(tok, rest);
    SliceJoin(t, i, e);
  }

  lemma SliceJoin(t: string, i: nat, e: nat)
    requires i <= e <= |t|
    ensures t[i..e] + t[e..] == t[i..]
  {
  }

  lemma RawAllCons(tok: Token, rest: seq<Token>)
    ensures RawAll([tok] + rest) == Raw(tok) + RawAll(rest)
  {
    assert ([tok] + rest)[1..] == rest;
  }

  /** Every token that is a match contains the `$` that ends it. */
  lemma {:induction false} ScanWithoutDollar(t: string, i: nat)
    requires i <= |t|
    requires '$' !in t[i..]
    ensures forall k :: 0 <= k < |Scan(t, i)| ==> Scan(t, i)[k].Lit?
    decreases |t| - i
  {
    if i < |t| {
      assert t[i] in t[i..];
      match MatchAt(t, i)
      case Some(_) =>
        assert false;
      case None =>
        assert t[i + 1..] == t[i..][1..];
        ScanWithoutDollar(t, i + 1);
    }
  }

  lemma {:induction false} RenderAllOtherTarget(toks: seq<Token>, target: string, rate: Option<real>, fmt: PriceFormat)
    requires target != "USD" && target != "SYP"
    ensures RenderAll(toks, target, rate, fmt) == RawAll(toks)
  {
    if toks != [] { RenderAllOtherTarget(toks[1..], target, rate, fmt); }
  }

  lemma {:induction false} RenderAllLiterals(toks: seq<Token>, target: string, rate: Option<real>, fmt: PriceFormat)
    requires forall k :: 0 <= k < |toks| ==> toks[k].Lit?
    ensures RenderAll(toks, target, rate, fmt) == RawAll(toks)
  {
    if toks != [] { RenderAllLiterals(toks[1..], target, rate, fmt); }
  }

  lemma {:induction false} RenderAllSypNoRate(toks: seq<Token>, rate: Option<real>, fmt: PriceFormat)
    ensures RenderAll(toks, "SYP", None, fmt) == RenderAll(toks, "USD", rate, fmt)
  {
    if toks != [] { RenderAllSypNoRate(toks[1..], rate, fmt); }
  }

  /** A target other than USD or SYP leaves the text as it is (main.py:151). */
  lemma OtherTargetUnchanged(text: string, target: string, rate: Option<real>, fmt: PriceFormat)
    requires target != "USD" && target != "SYP"
    ensures ConvertTextPrices(text, target, rate, fmt) == text
  {
    RenderAllOtherTarget(Tokens(text), target, rate, fmt);
    ScanCovers(text, 0);
  }

  /** SYP without a configured rate renders exactly as USD does, whatever rate
      the USD rendering is given (main.py:145, 147-148). */
  lemma SypWithoutRateIsUsd(text: string, rate: Option<real>, fmt: PriceFormat)
    ensures ConvertTextPrices(text, "SYP", None, fmt) == ConvertTextPrices(text, "USD", rate, fmt)
  {
    RenderAllSypNoRate(Tokens(text), rate, fmt);
  }

  /** A text without a `$` has no price token and comes back unchanged for
      every target. */
  lemma NoDollarUnchanged(text: string, target: string, rate: Option<real>, fmt: PriceFormat)
    requires '$' !in text
    ensures ConvertTextPrices(text, target, rate, fmt) == text
  {
    assert text[0..] == text;
    ScanWithoutDollar(text, 0);
    RenderAllLiterals(Tokens(text), target, rate, fmt);
    ScanCovers(text, 0);
  }

  /** No character of `s` is a digit or a minus sign, so no match can
      start inside `s`. */
  predicate Plain(s: string) {
    s == [] || (s[0] != '-' && !IsDigit(s[0]) && Plain(s[1..]))
  }

  lemma PlainCons(t: string, i: nat, n: nat)
    requires i < n <= |t|
    ensures Lits(t[i..n]) == [Lit(t[i])] + Lits(t[i + 1..n])
    ensures Plain(t[i..n]) <==> t[i] != '-' && !IsDigit(t[i]) && Plain(t[i + 1..n])
  {
    assert t[i..n][1..] == t[i + 1..n];
  }

  /** A plain stretch of text passes into the scan one character at a time. */
  lemma {:induction false} ScanPlainRun(t: string, i: nat, n: nat)
    requires i <= n <= |t|
    requires Plain(t[i..n])
    ensures Scan(t, i) == Lits(t[i..n]) + Scan(t, n)
    decreases n - i
  {
    if i < n {
      assert Plain(t[i + 1..n]) && MatchAt(t, i).None? by {
        PlainCons(t, i, n);
        NoMatchAtPlainChar(t, i);
      }
      ScanPlainRun(t, i + 1, n);
      ScanLitRun(t, i, n);
    } else {
      assert Lits(t[i..n]) == [];
    }
  }

  lemma ScanLitRun(t: string, i: nat, n: nat)
    requires i < n <= |t| && MatchAt(t, i).None?
    requires Scan(t, i + 1) == Lits(t[i + 1..n]) + Scan(t, n)
    ensures Scan(t, i) == Lits(t[i..n]) + Scan(t, n)
  {
    ScanLit(t, i);
    assert t[i..n][1..] == t[i + 1..n];
    ConsAssoc(Lit(t[i]), Lits(t[i + 1..n]), Lits(t[i..n]), Scan(t, n), Scan(t, i + 1), Scan(t, i));
  }

  lemma ConsAssoc(x: Token, rest: seq<Token>, whole: seq<Token>, tail: seq<Token>, mid: seq<Token>, all: seq<Token>)
    requires whole == [x] + rest && mid == rest + tail && all == [x] + mid
    ensures all == whole + tail
  {
  }

  /** Where no match starts, the scan keeps one character. */
  lemma ScanLit(t: string, i: nat)
    requires i < |t| && MatchAt(t, i).None?
    ensures Scan(t, i) == [Lit(t[i])] + Scan(t, i + 1)
  {
  }

  /** No match starts at a character that is neither a digit nor a minus sign. */
  lemma NoMatchAtPlainChar(t: string, i: nat)
    requires i < |t| && t[i] != '-' && !IsDigit(t[i])
    ensures MatchAt(t, i).None?
  {
  }

  /** The bot's own example price text (main.py:6). */
  const ExampleText: string := "خدمة (1$)"

  /** Its one price token is "1$", at position 6. */
  lemma ExampleTail()
    ensures Scan(ExampleText, 6) == [Price("1", "1$"), Lit(')')]
  {
    var t := ExampleText;
    assert DigitRun(t, 7) == 0 && DigitRun(t, 6) == 1 && SpaceRun(t, 7) == 0;
    assert MatchAt(t, 6) == Some((7, 8));
    NoMatchAtPlainChar(t, 8);
    assert t[6..7] == "1" && t[6..8] == "1$";
  }

  /** Before it stand six plain characters. */
  lemma ExampleTokens()
    ensures Tokens(ExampleText) == Lits("خدمة (") + [Price("1", "1$"), Lit(')')]
  {
    var t := ExampleText;
    ExampleTail();
    assert t[0..6] == "خدمة (" && Plain("خدمة (");
    ScanPlainRun(t, 0, 6);
  }

  lemma RenderExampleTail(rate: real, fmt: PriceFormat)
    ensures RenderAll([Price("1", "1$"), Lit(')')], "SYP", Some(rate), fmt) == fmt.syp("1", rate) + SypLabel + ")"
  {
    assert [Price("1", "1$"), Lit(')')][1..] == [Lit(')')];
    assert RenderAll([Lit(')')], "SYP", Some(rate), fmt) == ")";
  }

  /** With a rate configured, SYP replaces exactly that token by the
      converted amount and the local-currency label. */
  lemma ExampleSypConversion(rate: real, fmt: PriceFormat)
    ensures ConvertTextPrices(ExampleText, "SYP", Some(rate), fmt) == "خدمة (" + fmt.syp("1", rate) + SypLabel + ")"
  {
    ExampleTokens();
    RenderExampleTail(rate, fmt);
    RenderLits("خدمة (", [Price("1", "1$"), Lit(')')], "SYP", Some(rate), fmt);
  }

  function Lits(s: string): seq<Token> {
    if s == [] then [] else [Lit(s[0])] + Lits(s[1..])
  }

  lemma {:induction false} RenderLits(s: string, rest: seq<Token>, target: string, rate: Option<real>, fmt: PriceFormat)
    ensures RenderAll(Lits(s) + rest, target, rate, fmt) == s + RenderAll(rest, target, rate, fmt)
  {
    if s != [] {
      assert (Lits(s) + rest)[0] == Lit(s[0]);
      assert (Lits(s) + rest)[1..] == Lits(s[1..]) + rest;
      RenderLits(s[1..], rest, target, rate, fmt);
      assert RenderAll(Lits(s) + rest, target, rate, fmt)
          == [s[0]] + RenderAll(Lits(s[1..]) + rest, target, rate, fmt);
      assert [s[0]] + s[1..] == s;
    } else {
      assert Lits(s) + rest == rest;
    }
  }
}
