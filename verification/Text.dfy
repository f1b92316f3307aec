/** Character classes and string trimming as Rust defines them. */
module Text {
  /** The Unicode White_Space property. */
  predicate IsWhitespace(c: char) {
    var n := c as int;
    || 0x09 <= n <= 0x0D || n == 0x20 || n == 0x85 || n == 0xA0 || n == 0x1680
    || 0x2000 <= n <= 0x200A || n == 0x2028 || n == 0x2029 || n == 0x202F || n == 0x205F || n == 0x3000
  }

  const WHITE_SPACE: string :=
    "\t\n\U{B}\U{C}\r \U{85}\U{A0}\U{1680}\U{2000}\U{2001}\U{2002}\U{2003}\U{2004}\U{2005}\U{2006}\U{2007}\U{2008}"
    + "\U{2009}\U{200A}\U{2028}\U{2029}\U{202F}\U{205F}\U{3000}"

  /** The twenty-five characters of the property, one by one. */
  lemma WhitespaceIs(c: char)
    ensures IsWhitespace(c) <==> c in WHITE_SPACE
  {
  }

  predicate IsControl(c: char) {
    c as int < 0x20 || 0x7F <= c as int < 0xA0
  }

  /** How many characters at the start of `s` satisfy `p`. */
  function Leading(s: string, p: char -> bool): (n: nat)
    ensures n <= |s|
    ensures forall i :: 0 <= i < n ==> p(s[i])
    ensures n < |s| ==> !p(s[n])
  {
    if s == [] || !p(s[0]) then 0 else 1 + Leading(s[1..], p)
  }

  /** The length of `s` without the characters at its end that satisfy `p`. */
  function TrimmedLength(s: string, p: char -> bool): (n: nat)
    ensures n <= |s|
    ensures forall i :: n <= i < |s| ==> p(s[i])
    ensures n > 0 ==> !p(s[n - 1])
  {
    if s == [] then 0
    else if p(s[|s| - 1]) then TrimmedLength(s[..|s| - 1], p)
    else |s|
  }

  function TrimStart(s: string, p: char -> bool): string {
    s[Leading(s, p)..]
  }

  function TrimEnd(s: string, p: char -> bool): string {
    s[..TrimmedLength(s, p)]
  }

  function TrimMatches(s: string, p: char -> bool): string {
    TrimEnd(TrimStart(s, p), p)
  }

  function Trim(s: string): string {
    TrimMatches(s, IsWhitespace)
  }

  predicate All(s: string, p: char -> bool) {
    forall i :: 0 <= i < |s| ==> p(s[i])
  }

  /** What is left when characters that satisfy `p` are taken from both ends. */
  predicate IsCore(core: string, p: char -> bool) {
    core == "" || (!p(core[0]) && !p(core[|core| - 1]))
  }

  /** Trimming leaves the core of a text, whatever stands around it. */
  lemma TrimmedIs(before: string, core: string, after: string, p: char -> bool)
    requires All(before, p) && All(after, p) && IsCore(core, p)
    ensures TrimMatches(before + core + after, p) == core
  {
    var s := before + core + after;
    assert forall i :: 0 <= i < |before| ==> s[i] == before[i];
    assert forall i :: 0 <= i < |core| ==> s[|before| + i] == core[i];
    assert forall i :: 0 <= i < |after| ==> s[|before| + |core| + i] == after[i];
    if core == "" {
      assert Leading(s, p) == |s|;
    } else {
      assert Leading(s, p) == |before|;
      var rest := s[|before|..];
      assert rest == core + after;
      assert TrimmedLength(rest, p) == |core|;
    }
  }

  lemma TrimmedParts(s: string, p: char -> bool)
    ensures exists before, after :: s == before + TrimMatches(s, p) + after && All(before, p) && All(after, p)
    ensures IsCore(TrimMatches(s, p), p)
  {
    var n := Leading(s, p);
    var rest := s[n..];
    var m := TrimmedLength(rest, p);
    assert s == s[..n] + rest[..m] + rest[m..];
    assert All(s[..n], p) && All(rest[m..], p);
  }

  /** The pieces between the characters that satisfy `p`. */
  function Split(s: string, p: char -> bool): (pieces: seq<string>)
    ensures pieces != []
    decreases |s|
  {
    var n := Leading(s, c => !p(c));
    if n == |s| then [s] else [s[..n]] + Split(s[n + 1..], p)
  }

  lemma SplitUnfold(s: string, p: char -> bool, n: nat)
    requires n <= |s| && (forall i :: 0 <= i < n ==> !p(s[i])) && (n < |s| ==> p(s[n]))
    ensures Split(s, p) == if n == |s| then [s] else [s[..n]] + Split(s[n + 1..], p)
  {
    assert n == Leading(s, c => !p(c));
  }

  /** The first piece, and the pieces of what follows it. */
  lemma SplitAfter(first: string, c: char, rest: string, p: char -> bool)
    requires p(c) && forall i :: 0 <= i < |first| ==> !p(first[i])
    ensures Split(first + [c] + rest, p) == [first] + Split(rest, p)
  {
    var s, n := first + [c] + rest, |first|;
    assert s[..n] == first && s[n] == c && s[n + 1..] == rest;
    assert forall i :: 0 <= i < n ==> s[i] == first[i];
    SplitUnfold(s, p, n);
  }

  // ------------------------------------------------------------------ ASCII case

  function Lower(c: char): char {
    if 'A' <= c <= 'Z' then (c as int + 32) as char else c
  }

  const UPPER := "ABCDEFGHIJKLMNOPQRSTUVWXYZ"
  const LOWER := "abcdefghijklmnopqrstuvwxyz"

  lemma LetterIs(c: char)
    ensures c in UPPER <==> 'A' <= c <= 'Z'
    ensures c in LOWER <==> 'a' <= c <= 'z'
  {
  }

  /** Letter by letter, and nothing else. */
  lemma LowerIs(c: char)
    ensures forall i :: 0 <= i < 26 ==> Lower(UPPER[i]) == LOWER[i]
    ensures c !in UPPER ==> Lower(c) == c
  {
    if 'A' <= c <= 'Z' { assert UPPER[c as int - 'A' as int] == c; }
  }

  function ToLower(s: string): (r: string)
    ensures |r| == |s|
  {
    seq(|s|, i requires 0 <= i < |s| => Lower(s[i]))
  }

  // ------------------------------------------------------------------ decimal numerals

  predicate IsDigit(c: char) {
    '0' <= c <= '9'
  }

  function Digit(d: nat): (c: char)
    requires d < 10
    ensures IsDigit(c)
  {
    ('0' as int + d) as char
  }

  function Decimal(n: nat): (s: string)
    ensures s != [] && forall i :: 0 <= i < |s| ==> IsDigit(s[i])
  {
    if n < 10 then [Digit(n)] else Decimal(n / 10) + [Digit(n % 10)]
  }

  /** The number a numeral stands for. */
  function Value(s: string): nat
    requires forall i :: 0 <= i < |s| ==> IsDigit(s[i])
  {
    if s == [] then 0
    else
      assert IsDigit(s[|s| - 1]);
      10 * Value(s[..|s| - 1]) + (s[|s| - 1] as int - '0' as int)
  }

  lemma {:induction false} DecimalReadsBack(n: nat)
    ensures Value(Decimal(n)) == n
  {
    if n < 10 {
      assert Value([]) == 0;
      assert [Digit(n)][..0] == [];
    } else {
      DecimalReadsBack(n / 10);
      assert Decimal(n)[..|Decimal(n)| - 1] == Decimal(n / 10);
    }
  }

  // ------------------------------------------------------------------ UTF-8 lengths

  function Utf8Length(c: char): nat {
    if c as int < 0x80 then 1 else if c as int < 0x800 then 2 else if c as int < 0x1_0000 then 3 else 4
  }

  /** The length of a text in bytes. */
  function ByteLength(s: string): nat {
    if s == [] then 0 else Utf8Length(s[0]) + ByteLength(s[1..])
  }

  lemma {:induction false} ByteLengthConcat(a: string, b: string)
    ensures ByteLength(a + b) == ByteLength(a) + ByteLength(b)
  {
    if a == [] {
      assert a + b == b;
    } else {
      assert (a + b)[1..] == a[1..] + b;
      ByteLengthConcat(a[1..], b);
    }
  }

  lemma ByteLengthSplit(s: string, m: nat, n: nat)
    requires m <= n <= |s|
    ensures ByteLength(s[..n]) == ByteLength(s[..m]) + ByteLength(s[m..n])
  {
    assert s[..n] == s[..m] + s[m..n];
    ByteLengthConcat(s[..m], s[m..n]);
  }

  /** How many characters the first `bytes` bytes are. */
  function CharsIn(text: string, bytes: nat): (k: nat)
    ensures k <= |text|
  {
    if text == [] || bytes < Utf8Length(text[0]) then 0 else 1 + CharsIn(text[1..], bytes - Utf8Length(text[0]))
  }

  lemma {:induction false} CharsInPrefix(text: string, k: nat)
    requires k <= |text|
    ensures CharsIn(text, ByteLength(text[..k])) == k
  {
    if k > 0 {
      assert text[..k][1..] == text[1..][..k - 1];
      CharsInPrefix(text[1..], k - 1);
    }
  }

  lemma {:induction false} CharsInBounds(text: string, bytes: nat)
    ensures var k := CharsIn(text, bytes);
      ByteLength(text[..k]) <= bytes && (k < |text| ==> bytes < ByteLength(text[..k + 1]))
  {
    if text != [] {
      var n := Utf8Length(text[0]);
      assert text[..1][1..] == [] && ByteLength(text[..1]) == n;
      if bytes >= n {
        var k := CharsIn(text, bytes);
        CharsInBounds(text[1..], bytes - n);
        assert text[..k][1..] == text[1..][..k - 1];
        if k < |text| { assert text[..k + 1][1..] == text[1..][..k]; }
      }
    }
  }
}
