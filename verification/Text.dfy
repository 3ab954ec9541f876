/** The parts of Go's strings and strconv packages that the cron parser uses, on sequences of runes. */
module Text {
  import opened Wrappers

  // unicode.IsSpace
  predicate IsSpace(c: char) {
    var u := c as int;
    || 9 <= u <= 13 || u == 32 || u == 0x85 || u == 0xA0 || u == 0x1680
    || 0x2000 <= u <= 0x200A || u == 0x2028 || u == 0x2029 || u == 0x202F || u == 0x205F || u == 0x3000
  }

  predicate IsComma(c: char) {
    c == ','
  }

  predicate HasPrefix(s: string, prefix: string) {
    prefix <= s
  }

  // The number of runes before the first separator.
  function RunLength(s: string, sep: char -> bool): (n: nat)
    ensures n <= |s|
    ensures s != [] && !sep(s[0]) ==> n > 0
  {
    if s == [] || sep(s[0]) then 0 else 1 + RunLength(s[1..], sep)
  }

  // strings.FieldsFunc(s, sep): the maximal runs of runes that are not separators. With IsSpace it
  // is strings.Fields(s).
  function Words(s: string, sep: char -> bool): seq<string>
    decreases |s|
  {
    if s == [] then []
    else if sep(s[0]) then Words(s[1..], sep)
    else [s[..RunLength(s, sep)]] + Words(s[RunLength(s, sep)..], sep)
  }

  // strings.Split(s, c), for a separator of one rune
  function SplitOn(s: string, c: char): (parts: seq<string>)
    ensures |parts| >= 1
  {
    if s == [] then [""]
    else
      var rest := SplitOn(s[1..], c);
      if s[0] == c then [""] + rest
      else [[s[0]] + rest[0]] + rest[1..]
  }

  function TrimLeft(s: string): string {
    if s != [] && IsSpace(s[0]) then TrimLeft(s[1..]) else s
  }

  function TrimRight(s: string): string {
    if s != [] && IsSpace(s[|s| - 1]) then TrimRight(s[..|s| - 1]) else s
  }

  function TrimSpace(s: string): string {
    TrimRight(TrimLeft(s))
  }

  // The lower-case form of a rune, as far as it can be an ASCII letter: besides A..Z these are
  // U+0130 and the Kelvin sign. No other rune can make a text equal to an ASCII name.
  function LowerRune(c: char): char {
    if 'A' <= c <= 'Z' then ((c as int) + 32) as char
    else if c as int == 0x130 then 'i'
    else if c as int == 0x212A then 'k'
    else c
  }

  function ToLower(s: string): string {
    if s == [] then [] else [LowerRune(s[0])] + ToLower(s[1..])
  }

  predicate IsDigit(c: char) {
    '0' <= c <= '9'
  }

  predicate AllDigits(s: string) {
    forall i :: 0 <= i < |s| ==> IsDigit(s[i])
  }

  function DigitValue(c: char): nat
    requires IsDigit(c)
  {
    (c as int) - ('0' as int)
  }

  function DigitsValue(s: string): nat
    requires AllDigits(s)
  {
    if s == [] then 0
    else 10 * DigitsValue(s[..|s| - 1]) + DigitValue(s[|s| - 1])
  }

  const MAX_INT := 0x7FFF_FFFF_FFFF_FFFF

  // strconv.Atoi: an optional sign and decimal digits, within 64 bits
  function Atoi(s: string): Option<int> {
    var signed := s != [] && (s[0] == '+' || s[0] == '-');
    var digits := if signed then s[1..] else s;
    if digits == [] || !AllDigits(digits) then None
    else
      var n: int := DigitsValue(digits);
      if signed && s[0] == '-' then (if n <= MAX_INT + 1 then Some(-n) else None)
      else if n <= MAX_INT then Some(n) else None
  }

  // ----- laws -----

  // Splitting a text without the separator leaves it whole.
  lemma {:induction false} SplitWhole(s: string, c: char)
    requires c !in s
    ensures SplitOn(s, c) == [s]
  {
    if s != [] {
      SplitWhole(s[1..], c);
      assert [s[0]] + s[1..] == s;
    }
  }

  // Splitting at the first separator.
  lemma {:induction false} SplitJoin(a: string, c: char, b: string)
    requires c !in a
    ensures SplitOn(a + [c] + b, c) == [a] + SplitOn(b, c)
  {
    var s := a + [c] + b;
    if a == [] {
      assert s[1..] == b;
    } else {
      SplitJoin(a[1..], c, b);
      assert s[1..] == a[1..] + [c] + b;
      assert [a[0]] + a[1..] == a;
    }
  }

  predicate AllSpace(s: string) {
    forall i :: 0 <= i < |s| ==> IsSpace(s[i])
  }

  lemma {:induction false} TrimLeftSpaces(a: string, s: string)
    requires AllSpace(a) && s != [] && !IsSpace(s[0])
    ensures TrimLeft(a + s) == s
  {
    if a == [] {
      assert a + s == s;
    } else {
      assert (a + s)[1..] == a[1..] + s;
      TrimLeftSpaces(a[1..], s);
    }
  }

  lemma {:induction false} TrimRightSpaces(s: string, b: string)
    requires AllSpace(b) && s != [] && !IsSpace(s[|s| - 1])
    ensures TrimRight(s + b) == s
  {
    if b == [] {
      assert s + b == s;
    } else {
      assert (s + b)[..|s + b| - 1] == s + b[..|b| - 1];
      TrimRightSpaces(s, b[..|b| - 1]);
    }
  }

  // White space on both sides of a text is what is trimmed.
  lemma TrimSpaceTrims(a: string, s: string, b: string)
    requires AllSpace(a) && AllSpace(b) && s != [] && !IsSpace(s[0]) && !IsSpace(s[|s| - 1])
    ensures TrimSpace(a + s + b) == s
  {
    assert a + s + b == a + (s + b);
    TrimLeftSpaces(a, s + b);
    TrimRightSpaces(s, b);
  }

  lemma WordsSkip(c: char, s: string, sep: char -> bool)
    requires sep(c)
    ensures Words([c] + s, sep) == Words(s, sep)
  {
    assert ([c] + s)[1..] == s;
  }

  lemma {:induction false} RunStops(w: string, c: char, s: string, sep: char -> bool)
    requires sep(c) && forall i :: 0 <= i < |w| ==> !sep(w[i])
    ensures RunLength(w + [c] + s, sep) == |w|
  {
    if w != [] {
      RunStops(w[1..], c, s, sep);
      assert (w + [c] + s)[1..] == w[1..] + [c] + s;
    }
  }

  // A word and a separator in front of a text add that word to its words.
  lemma WordsCons(w: string, c: char, s: string, sep: char -> bool)
    requires w != [] && sep(c) && forall i :: 0 <= i < |w| ==> !sep(w[i])
    ensures Words(w + [c] + s, sep) == [w] + Words(s, sep)
  {
    var t := w + [c] + s;
    RunStops(w, c, s, sep);
    assert t[..|w|] == w && t[|w|..] == [c] + s;
    WordsSkip(c, s, sep);
  }

  lemma {:induction false} RunAll(w: string, sep: char -> bool)
    requires forall i :: 0 <= i < |w| ==> !sep(w[i])
    ensures RunLength(w, sep) == |w|
  {
    if w != [] { RunAll(w[1..], sep); }
  }

  // A text without separators is one word.
  lemma WordsWhole(w: string, sep: char -> bool)
    requires w != [] && forall i :: 0 <= i < |w| ==> !sep(w[i])
    ensures Words(w, sep) == [w]
  {
    RunAll(w, sep);
    assert w[..|w|] == w && w[|w|..] == [];
  }
}
