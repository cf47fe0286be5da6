/**
 * The pieces of Rust's text handling that the engine relies on:
 * `str::split_whitespace`, `u8::from_str` and the decimal `Display` of integers.
 */
module Text {
  import opened Wrappers

  /** Rust's `char::is_whitespace`: the characters with the Unicode White_Space property. */
  predicate IsWhitespace(ch: char) {
    ('\t' <= ch <= '\r') || ch == ' ' || ch == '\U{85}' || ch == '\U{A0}' || ch == '\U{1680}'
    || ('\U{2000}' <= ch <= '\U{200A}') || ch == '\U{2028}' || ch == '\U{2029}'
    || ch == '\U{202F}' || ch == '\U{205F}' || ch == '\U{3000}'
  }

  /** A token as `split_whitespace` yields it: non-empty, with no whitespace inside. */
  predicate IsWord(w: string) {
    w != [] && forall i :: 0 <= i < |w| ==> !IsWhitespace(w[i])
  }

  /** Length of the run of non-whitespace characters at the start of `s`. */
  function WordLength(s: string): (n: nat)
    ensures n <= |s|
    ensures forall i :: 0 <= i < n ==> !IsWhitespace(s[i])
    ensures n < |s| ==> IsWhitespace(s[n])
  {
    if s == [] || IsWhitespace(s[0]) then 0 else 1 + WordLength(s[1..])
  }

  /** `s.split_whitespace()`: the maximal runs of non-whitespace characters, in order. */
  function Tokens(s: string): (ws: seq<string>)
    ensures forall i :: 0 <= i < |ws| ==> IsWord(ws[i])
    decreases |s|
  {
    if s == [] then []
    else if IsWhitespace(s[0]) then Tokens(s[1..])
    else
      var n := WordLength(s);
      [s[..n]] + Tokens(s[n..])
  }

  /** The words joined by single spaces: the canonical way to write a command line. */
  function Unwords(ws: seq<string>): string {
    if ws == [] then []
    else if |ws| == 1 then ws[0]
    else ws[0] + " " + Unwords(ws[1..])
  }

  lemma {:induction false} WordLengthOfWord(w: string, t: string)
    requires IsWord(w)
    requires t == [] || IsWhitespace(t[0])
    ensures WordLength(w + t) == |w|
  {
    if |w| > 1 {
      assert (w + t)[1..] == w[1..] + t;
      WordLengthOfWord(w[1..], t);
    } else {
      assert (w + t)[1..] == t;
    }
  }

  /** Splitting a line made of words separated by single spaces gives the words back. */
  lemma {:induction false} TokensUnwords(ws: seq<string>)
    requires forall i :: 0 <= i < |ws| ==> IsWord(ws[i])
    ensures Tokens(Unwords(ws)) == ws
  {
    if ws == [] {
    } else if |ws| == 1 {
      var w := ws[0];
      WordLengthOfWord(w, []);
      assert w + [] == w;
      assert w[|w|..] == [];
      assert w[..|w|] == w;
    } else {
      var w, rest := ws[0], Unwords(ws[1..]);
      var s := w + " " + rest;
      assert s == w + (" " + rest);
      WordLengthOfWord(w, " " + rest);
      assert s[..|w|] == w;
      assert s[|w|..] == " " + rest;
      assert (" " + rest)[1..] == rest;
      TokensUnwords(ws[1..]);
    }
  }

  /** Trailing whitespace, such as the newline `read_line` keeps, does not change the tokens. */
  lemma {:induction false} TokensTrailingWhitespace(s: string, t: string)
    requires forall i :: 0 <= i < |t| ==> IsWhitespace(t[i])
    ensures Tokens(s + t) == Tokens(s)
    decreases |s|
  {
    if s == [] {
      assert s + t == t;
      TokensAllWhitespace(t);
    } else if IsWhitespace(s[0]) {
      assert (s + t)[1..] == s[1..] + t;
      TokensTrailingWhitespace(s[1..], t);
    } else {
      var n := WordLength(s);
      WordLengthPrefix(s, t);
      assert (s + t)[..n] == s[..n];
      assert (s + t)[n..] == s[n..] + t;
      TokensTrailingWhitespace(s[n..], t);
    }
  }

  lemma {:induction false} TokensAllWhitespace(t: string)
    requires forall i :: 0 <= i < |t| ==> IsWhitespace(t[i])
    ensures Tokens(t) == []
    decreases |t|
  {
    if t != [] {
      TokensAllWhitespace(t[1..]);
    }
  }

  lemma {:induction false} WordLengthPrefix(s: string, t: string)
    requires s != [] && !IsWhitespace(s[0])
    requires forall i :: 0 <= i < |t| ==> IsWhitespace(t[i])
    ensures WordLength(s + t) == WordLength(s)
    decreases |s|
  {
    assert (s + t)[1..] == s[1..] + t;
    if |s| > 1 && !IsWhitespace(s[1]) {
      WordLengthPrefix(s[1..], t);
    } else if |s| > 1 {
    } else {
      assert s[1..] + t == t;
    }
  }

  predicate IsDigit(ch: char) { '0' <= ch <= '9' }

  predicate AllDigits(s: string) {
    forall i :: 0 <= i < |s| ==> IsDigit(s[i])
  }

  function DigitChar(d: nat): (ch: char)
    requires d < 10
    ensures IsDigit(ch)
  {
    ('0' as int + d) as char
  }

  /** The value of a string of decimal digits (leading zeros allowed). */
  function DigitsValue(s: string): nat
    requires AllDigits(s)
  {
    if s == [] then 0
    else DigitsValue(s[..|s| - 1]) * 10 + (s[|s| - 1] as int - '0' as int)
  }

  /**
   * `s.parse::<u8>()`: an optional leading `+`, then at least one decimal digit,
   * with a value that fits in eight bits.
   */
  function ParseU8(s: string): (r: Option<nat>)
    ensures r.Some? ==> r.value < 256
    ensures r.Some? ==> s != [] && (IsDigit(s[0]) || s[0] == '+')
    ensures r.Some? ==> forall i :: 0 < i < |s| ==> IsDigit(s[i])
  {
    var digits := if s != [] && s[0] == '+' then s[1..] else s;
    if digits != [] && AllDigits(digits) && DigitsValue(digits) < 256 then
      Some(DigitsValue(digits))
    else
      None
  }

  /** The decimal `Display` of a natural number: no sign, no leading zeros. */
  function Decimal(n: nat): (s: string)
    ensures s != [] && AllDigits(s)
    ensures |s| > 1 ==> s[0] != '0'
  {
    if n < 10 then [DigitChar(n)] else Decimal(n / 10) + [DigitChar(n % 10)]
  }

  lemma {:induction false} DecimalValue(n: nat)
    ensures DigitsValue(Decimal(n)) == n
  {
    if n >= 10 {
      var s := Decimal(n);
      assert s[..|s| - 1] == Decimal(n / 10);
      DecimalValue(n / 10);
    } else {
      var s := Decimal(n);
      assert s[..|s| - 1] == [];
    }
  }

  /** Parsing the printed form of an eight-bit number gives the number back. */
  lemma ParseU8Decimal(n: nat)
    requires n < 256
    ensures ParseU8(Decimal(n)) == Some(n)
  {
    DecimalValue(n);
  }

  /** `u8::from_str` rejects the empty string, a lone sign and any non-digit. */
  lemma ParseU8Rejects(s: string)
    requires s == [] || s == "+" || (exists i :: 0 < i < |s| && !IsDigit(s[i]))
      || (s[0] != '+' && !IsDigit(s[0]))
    ensures ParseU8(s) == None
  {
    if s != [] && s[0] == '+' && |s| > 1 {
      var i :| 0 < i < |s| && !IsDigit(s[i]);
      assert !IsDigit(s[1..][i - 1]);
    }
  }
}
