/**
 * The three pieces of Python string behaviour the server relies on:
 * `str.lower()` on categorical inputs, `str.strip()` on log lines and
 * `str(int)` when a label is written to the log.
 */
module Text {

  /** Python's `str.isspace()`: the characters `str.strip()` removes. */
  predicate IsSpace(c: char) {
    || c == ' '
    || '\U{9}' <= c <= '\U{D}'
    || '\U{1C}' <= c <= '\U{1F}'
    || c == '\U{85}' || c == '\U{A0}' || c == '\U{1680}'
    || '\U{2000}' <= c <= '\U{200A}'
    || c == '\U{2028}' || c == '\U{2029}' || c == '\U{202F}'
    || c == '\U{205F}' || c == '\U{3000}'
  }

  predicate IsUpper(c: char) {
    'A' <= c <= 'Z'
  }

  const Alphabet: string := "abcdefghijklmnopqrstuvwxyz"

  /** An upper-case letter becomes the lower-case letter at the same place in the alphabet. */
  function LowerChar(c: char): (r: char)
    ensures IsUpper(c) ==> r == Alphabet[c as int - 'A' as int]
    ensures !IsUpper(c) ==> r == c
  {
    if IsUpper(c) then (c as int + 32) as char else c
  }

  /** `str.lower()` restricted to ASCII letters. */
  function Lower(s: string): (r: string)
    ensures |r| == |s|
    ensures forall i :: 0 <= i < |r| ==> !IsUpper(r[i])
    ensures forall i :: 0 <= i < |s| && IsUpper(s[i]) ==> r[i] == Alphabet[s[i] as int - 'A' as int]
    ensures forall i :: 0 <= i < |s| && !IsUpper(s[i]) ==> r[i] == s[i]
  {
    seq(|s|, i requires 0 <= i < |s| => LowerChar(s[i]))
  }

  /** The number of whitespace characters `s` starts with. */
  function LeadingSpaces(s: string, lo: nat := 0): (n: nat)
    requires lo <= |s|
    requires forall j :: 0 <= j < lo ==> IsSpace(s[j])
    ensures lo <= n <= |s|
    ensures forall j :: 0 <= j < n ==> IsSpace(s[j])
    ensures n < |s| ==> !IsSpace(s[n])
    decreases |s| - lo
  {
    if lo < |s| && IsSpace(s[lo]) then LeadingSpaces(s, lo + 1) else lo
  }

  /** The end of the text of `s` once trailing whitespace at or after `lo` is dropped. */
  function TextEnd(s: string, lo: nat, hi: nat := |s|): (n: nat)
    requires lo <= hi <= |s|
    requires forall j :: hi <= j < |s| ==> IsSpace(s[j])
    ensures lo <= n <= hi
    ensures forall j :: n <= j < |s| ==> IsSpace(s[j])
    ensures n > lo ==> !IsSpace(s[n - 1])
    decreases hi
  {
    if hi > lo && IsSpace(s[hi - 1]) then TextEnd(s, lo, hi - 1) else hi
  }

  /** `r` sits in `s` at offset `i` with only whitespace before and after it. */
  predicate PaddedAt(s: string, r: string, i: int) {
    && 0 <= i && i + |r| <= |s| && r == s[i..i + |r|]
    && (forall j :: 0 <= j < i ==> IsSpace(s[j]))
    && (forall j :: i + |r| <= j < |s| ==> IsSpace(s[j]))
  }

  /** `str.strip()`: `s` without its leading and trailing whitespace. */
  function Strip(s: string): (r: string)
    ensures r == [] || (!IsSpace(r[0]) && !IsSpace(r[|r| - 1]))
    ensures |r| <= |s|
  {
    var a := LeadingSpaces(s);
    s[a..TextEnd(s, a)]
  }

  /** What `Strip` removes is whitespace, from both ends only. */
  lemma StripPadded(s: string)
    ensures exists i :: PaddedAt(s, Strip(s), i)
  {
    var a := LeadingSpaces(s);
    var b := TextEnd(s, a);
    assert Strip(s) == s[a..b];
    assert PaddedAt(s, s[a..b], a);
  }

  predicate IsDigit(c: char) {
    '0' <= c <= '9'
  }

  function DigitChar(d: nat): (c: char)
    requires d < 10
    ensures IsDigit(c)
  {
    "0123456789"[d]
  }

  /** The decimal digits of `n`, most significant first, no leading zero. */
  function Digits(n: nat): (r: string)
    ensures |r| >= 1
    ensures |r| == 1 <==> n < 10
    ensures forall i :: 0 <= i < |r| ==> IsDigit(r[i])
    decreases n
  {
    if n < 10 then [DigitChar(n)] else Digits(n / 10) + [DigitChar(n % 10)]
  }

  /** Python's `str(n)` on an integer: an optional minus sign, then digits. */
  function Decimal(n: int): (r: string)
    ensures |r| >= 1
    ensures forall i :: 0 <= i < |r| ==> IsDigit(r[i]) || r[i] == '-'
  {
    if n < 0 then "-" + Digits(-n) else Digits(n)
  }

  /** Only 1 prints as "1" and only 0 prints as "0". */
  lemma DecimalOneZero(n: int)
    ensures Decimal(n) == "1" <==> n == 1
    ensures Decimal(n) == "0" <==> n == 0
  {
    if n < 0 {
      assert Decimal(n)[0] == '-';
    } else if n >= 10 {
      assert |Decimal(n)| >= 2;
    } else {
      assert Decimal(n) == ["0123456789"[n]];
    }
  }

  /** A word followed by the newline that ends its line strips back to the word. */
  lemma StripLine(s: string)
    requires s != [] && !IsSpace(s[0]) && !IsSpace(s[|s| - 1])
    ensures Strip(s + "\n") == s
  {
    var x := s + "\n";
    var r := Strip(x);
    StripPadded(x);
    var i :| PaddedAt(x, r, i);
    assert x[0] == s[0];
    assert i == 0;
    assert x[|s| - 1] == s[|s| - 1];
    assert IsSpace(x[|s|]);
    assert |r| <= |s|;
    assert r == x[..|s|] == s;
  }
}
