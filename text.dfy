/** The handful of Python `str` operations the bot applies to admin input and
    callback data: `strip()`, `split(sep)`, `startswith`, and `lower() == word`,
    and the command telebot reads off a text message. */
module Text {
  import opened Wrappers

  /** Python's `str.isspace()`, which is also what `\s` matches in a `str` regex
      and what `str.strip()` with no argument removes. */
  predicate IsSpace(c: char) {
    || ('\t' <= c <= '\r')              // \t \n \v \f \r
    || ('\U{001C}' <= c <= '\U{001F}')  // file, group, record and unit separators
    || c == ' '
    || c == '\U{0085}' || c == '\U{00A0}' || c == '\U{1680}'
    || ('\U{2000}' <= c <= '\U{200A}')
    || c == '\U{2028}' || c == '\U{2029}' || c == '\U{202F}' || c == '\U{205F}' || c == '\U{3000}'
  }

  /** Number of whitespace characters at the start of `s`. */
  function LeadingSpace(s: string): (n: nat)
    ensures n <= |s|
    ensures forall k :: 0 <= k < n ==> IsSpace(s[k])
    ensures n < |s| ==> !IsSpace(s[n])
  {
    if s == [] || !IsSpace(s[0]) then 0 else 1 + LeadingSpace(s[1..])
  }

  /** Number of whitespace characters at the end of `s`. */
  function TrailingSpace(s: string): (n: nat)
    ensures n <= |s|
    ensures forall k :: |s| - n <= k < |s| ==> IsSpace(s[k])
    ensures n < |s| ==> !IsSpace(s[|s| - 1 - n])
  {
    if s == [] || !IsSpace(s[|s| - 1]) then 0 else 1 + TrailingSpace(s[..|s| - 1])
  }

  /** `s.strip()`: `s` without its leading and trailing whitespace. */
  function Strip(s: string): (r: string)
    ensures LeadingSpace(s) + |r| <= |s|
    ensures r == s[LeadingSpace(s)..LeadingSpace(s) + |r|]
    ensures r == [] || (!IsSpace(r[0]) && !IsSpace(r[|r| - 1]))
    ensures forall k :: LeadingSpace(s) + |r| <= k < |s| ==> IsSpace(s[k])
  {
    var t := s[LeadingSpace(s)..];
    t[..|t| - TrailingSpace(t)]
  }

  /** A string whose two ends are not whitespace is its own `strip()`. */
  lemma StripKeeps(s: string)
    requires s == [] || (!IsSpace(s[0]) && !IsSpace(s[|s| - 1]))
    ensures Strip(s) == s
  {
  }

  /** Stripping twice is stripping once. */
  lemma StripIdempotent(s: string)
    ensures Strip(Strip(s)) == Strip(s)
  {
    StripKeeps(Strip(s));
  }

  /** `s.split(sep)`: the pieces between occurrences of `sep`. */
  function Split(s: string, sep: char): (parts: seq<string>)
    ensures |parts| >= 1
    ensures forall i :: 0 <= i < |parts| ==> sep !in parts[i]
  {
    if s == [] then [[]]
    else
      var rest := Split(s[1..], sep);
      if s[0] == sep then [[]] + rest
      else [[s[0]] + rest[0]] + rest[1..]
  }

  /** `sep.join(parts)`. */
  function Join(parts: seq<string>, sep: char): string
    requires |parts| >= 1
  {
    if |parts| == 1 then parts[0] else parts[0] + [sep] + Join(parts[1..], sep)
  }

  /** Splitting loses nothing: joining the pieces gives the input back. */
  lemma {:induction false} SplitJoin(s: string, sep: char)
    ensures Join(Split(s, sep), sep) == s
  {
    if s != [] {
      var rest := Split(s[1..], sep);
      SplitJoin(s[1..], sep);
      if s[0] != sep {
        if |rest| == 1 {
          assert Split(s, sep) == [[s[0]] + rest[0]];
        } else {
          assert Split(s, sep)[1..] == rest[1..];
        }
      } else {
        assert Split(s, sep)[1..] == rest;
      }
    }
  }

  /** The number of pieces is one more than the number of separators. */
  function Occurrences(s: string, c: char): nat {
    if s == [] then 0 else (if s[0] == c then 1 else 0) + Occurrences(s[1..], c)
  }

  lemma {:induction false} SplitCount(s: string, sep: char)
    ensures |Split(s, sep)| == Occurrences(s, sep) + 1
  {
    if s != [] { SplitCount(s[1..], sep); }
  }

  /** `s.startswith(p)`. */
  predicate StartsWith(s: string, p: string) {
    |p| <= |s| && s[..|p|] == p
  }

  /** Where the command word that starts at `i` ends: at the first whitespace
      or `@`, or at the end of the text. */
  function WordEnd(t: string, i: nat): (k: nat)
    requires i <= |t|
    ensures i <= k <= |t|
    ensures forall j :: i <= j < k ==> !IsSpace(t[j]) && t[j] != '@'
    ensures k < |t| ==> IsSpace(t[k]) || t[k] == '@'
    decreases |t| - i
  {
    if i == |t| || IsSpace(t[i]) || t[i] == '@' then i else WordEnd(t, i + 1)
  }

  /** telebot's `extract_command`: for a text that starts with `/`, its first
      word without the `/` and without an `@botname` suffix. */
  function CommandOf(t: string): (r: Option<string>)
    ensures r.Some? <==> StartsWith(t, "/")
    ensures r.Some? ==> '@' !in r.value && forall j :: 0 <= j < |r.value| ==> !IsSpace(r.value[j])
    ensures r.Some? ==> 1 + |r.value| <= |t| && r.value == t[1..1 + |r.value|] && EndsWord(t, 1 + |r.value|)
  {
    if |t| > 0 && t[0] == '/' then Some(t[1..WordEnd(t, 1)]) else None
  }

  /** Position `k` of `t` is where a word stops: the end of the text,
      whitespace, or the `@` before a bot name. */
  predicate EndsWord(t: string, k: nat) {
    k == |t| || (k < |t| && (IsSpace(t[k]) || t[k] == '@'))
  }

  /** The command word is the only word that fits: any `w` that follows the
      `/`, holds no whitespace and no `@`, and is followed by the end of the
      text, whitespace or `@`, is the command. */
  lemma CommandWordIsUnique(t: string, w: string)
    requires StartsWith(t, "/") && 1 + |w| <= |t| && w == t[1..1 + |w|] && EndsWord(t, 1 + |w|)
    requires '@' !in w && forall j :: 0 <= j < |w| ==> !IsSpace(w[j])
    ensures CommandOf(t) == Some(w)
  {
  }

  /** ASCII upper case to lower case; every other character is unchanged. */
  function LowerAscii(c: char): char {
    if 'A' <= c <= 'Z' then (c as int + 32) as char else c
  }

  /** `s.lower() == word` for a lower-case ASCII `word`. Python's `lower()` maps
      no non-ASCII character to one of the ASCII letters such a word is made of
      except KELVIN SIGN to `k`, which none of the words used here contains. */
  predicate LowerEquals(s: string, word: string) {
    |s| == |word| && forall i :: 0 <= i < |s| ==> LowerAscii(s[i]) == word[i]
  }
}
