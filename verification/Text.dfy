/** The string operations of Rust's standard library that the modelled code relies on. */
module Text {

  datatype Option<T> = None | Some(value: T)

  /** `char::is_whitespace`: the Unicode property White_Space. */
  predicate IsWhitespace(c: char) {
    '\U{9}' <= c <= '\U{D}' || c == ' ' || c == '\U{85}' || c == '\U{A0}' || c == '\U{1680}'
    || '\U{2000}' <= c <= '\U{200A}' || c == '\U{2028}' || c == '\U{2029}' || c == '\U{202F}' || c == '\U{205F}' || c == '\U{3000}'
  }

  function TrimStart(s: string): (r: string)
    ensures r == "" || !IsWhitespace(r[0])
    ensures |r| <= |s|
  {
    if s != "" && IsWhitespace(s[0]) then TrimStart(s[1..]) else s
  }

  function TrimEnd(s: string): (r: string)
    ensures r <= s && (r == "" || !IsWhitespace(r[|r| - 1]))
  {
    if s != "" && IsWhitespace(s[|s| - 1]) then TrimEnd(s[..|s| - 1]) else s
  }

  function Trim(s: string): (r: string)
    ensures Trimmed(r)
  {
    TrimEnd(TrimStart(s))
  }

  predicate Trimmed(s: string) { s == "" || (!IsWhitespace(s[0]) && !IsWhitespace(s[|s| - 1])) }

  lemma TrimOfTrimmed(s: string)
    requires Trimmed(s)
    ensures Trim(s) == s
  {
  }

  predicate Blank(s: string) { Trim(s) == "" }

  /** `str::split` on one character. */
  function Split(s: string, sep: char): (parts: seq<string>)
    ensures parts != []
    ensures forall p :: p in parts ==> sep !in p
    ensures sep !in s ==> parts == [s]
  {
    if s == "" then [""]
    else
      var rest := Split(s[1..], sep);
      assert s[0] != sep ==> sep !in [s[0]] + rest[0];
      assert [s[0]] + s[1..] == s;
      if s[0] == sep then [""] + rest else [[s[0]] + rest[0]] + rest[1..]
  }

  function Join(parts: seq<string>, sep: char): string
    requires parts != []
  {
    if |parts| == 1 then parts[0] else parts[0] + [sep] + Join(parts[1..], sep)
  }

  /** How many bytes a character has in UTF-8, and a text. */
  function CharBytes(c: char): (n: nat)
    ensures 1 <= n <= 4
  {
    if c < '\U{80}' then 1 else if c < '\U{800}' then 2 else if c < '\U{10000}' then 3 else 4
  }

  function ByteLen(s: string): (n: nat)
    ensures n >= |s|
  {
    if s == "" then 0 else ByteLen(s[..|s| - 1]) + CharBytes(s[|s| - 1])
  }

  /** `str::split_at` before the last `n` bytes: the place of the cut, or none if that is inside a character. */
  function CutBefore(s: string, n: nat): (r: Option<nat>)
    ensures r.Some? ==> r.value <= |s|
  {
    if n == 0 then Some(|s|)
    else if s == "" || CharBytes(s[|s| - 1]) > n then None
    else CutBefore(s[..|s| - 1], n - CharBytes(s[|s| - 1]))
  }

  /** The cut is the place after which there are `n` bytes, and there is one iff there is such a place. */
  lemma {:induction false} CutBeforeIff(s: string, n: nat, k: nat)
    requires k <= |s|
    ensures CutBefore(s, n) == Some(k) <==> ByteLen(s[k..]) == n
  {
    var tail := s[k..];
    if k == |s| {
      assert tail == "";
    } else {
      var m := |s| - 1;
      assert tail[..|tail| - 1] == s[..m][k..] && tail[|tail| - 1] == s[m];
      if CharBytes(s[m]) <= n { CutBeforeIff(s[..m], n - CharBytes(s[m]), k); }
    }
  }

  /** The first word of a text and what follows it. */
  function FirstWord(s: string): (r: (string, string))
    ensures s == r.0 + r.1 && forall i :: 0 <= i < |r.0| ==> !IsWhitespace(r.0[i])
    ensures s != "" && !IsWhitespace(s[0]) ==> r.0 != ""
  {
    if s == "" || IsWhitespace(s[0]) then ("", s)
    else
      var (w, rest) := FirstWord(s[1..]);
      assert s == [s[0]] + s[1..] == [s[0]] + (w + rest) == ([s[0]] + w) + rest;
      ([s[0]] + w, rest)
  }

  /** `str::split_whitespace`. */
  function SplitWhitespace(s: string): (words: seq<string>)
    ensures forall w :: w in words ==> w != "" && forall i :: 0 <= i < |w| ==> !IsWhitespace(w[i])
    decreases |s|
  {
    var t := TrimStart(s);
    if t == "" then [] else var (w, rest) := FirstWord(t); [w] + SplitWhitespace(rest)
  }

  /** `str::split_once` on one character. */
  function SplitOnce(s: string, sep: char): (r: Option<(string, string)>)
    ensures r.None? <==> sep !in s
    ensures r.Some? ==> s == r.value.0 + [sep] + r.value.1 && sep !in r.value.0
  {
    if s == "" then None
    else if s[0] == sep then Some(("", s[1..]))
    else
      match SplitOnce(s[1..], sep)
      case None => None
      case Some((a, b)) => Some(([s[0]] + a, b))
  }

  // ---- Unsigned bytes ----

  predicate IsDigit(c: char) { '0' <= c <= '9' }

  function Digit(c: char): nat
    requires IsDigit(c)
  {
    c as int - '0' as int
  }

  function DigitsValue(s: string): nat
    requires forall i :: 0 <= i < |s| ==> IsDigit(s[i])
  {
    if s == "" then 0 else 10 * DigitsValue(s[..|s| - 1]) + Digit(s[|s| - 1])
  }

  /** `str::parse::<u8>`: an optional plus sign, then digits, not above 255. */
  function ParseU8(s: string): (r: Option<nat>)
    ensures r.Some? ==> r.value <= 255
  {
    var digits := if s != "" && s[0] == '+' then s[1..] else s;
    if digits != "" && (forall i :: 0 <= i < |digits| ==> IsDigit(digits[i])) && DigitsValue(digits) <= 255
    then Some(DigitsValue(digits)) else None
  }
}
