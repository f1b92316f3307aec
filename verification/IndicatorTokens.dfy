/** The tokens of pasted indicators, and how src/prompts.rs refangs them. */
module IndicatorTokens {
  import opened Wrappers
  import Text

  // ------------------------------------------------------------------ tokens

  predicate IsSeparator(c: char) {
    Text.IsWhitespace(c) || c == ',' || c == ';'
  }

  predicate IsWrapping(c: char) {
    c in "\"'<>()"
  }

  function Trimmed(pieces: seq<string>): seq<string> {
    if pieces == [] then []
    else
      var t := Text.TrimMatches(pieces[0], IsWrapping);
      (if t == [] then [] else [t]) + Trimmed(pieces[1..])
  }

  lemma TrimmedPiece(piece: string)
    ensures var t := Text.TrimMatches(piece, IsWrapping);
      t != [] ==> !IsWrapping(t[0]) && !IsWrapping(t[|t| - 1])
  {
    var start := Text.TrimStart(piece, IsWrapping);
    var n := Text.TrimmedLength(start, IsWrapping);
    if n > 0 { assert start[0] == piece[Text.Leading(piece, IsWrapping)]; }
  }

  /** Tokens are never empty, nor wrapped in quotes or brackets. */
  lemma {:induction false} TokensAreTrimmed(pieces: seq<string>, t: string)
    requires t in Trimmed(pieces)
    ensures t != [] && !IsWrapping(t[0]) && !IsWrapping(t[|t| - 1])
  {
    TrimmedPiece(pieces[0]);
    if t in Trimmed(pieces[1..]) { TokensAreTrimmed(pieces[1..], t); }
  }

  function Tokens(raw: string): seq<string> {
    Trimmed(Text.Split(raw, IsSeparator))
  }

  predicate Separates(c: char) {
    c == ',' || c == ';' || c in Text.WHITE_SPACE
  }

  lemma SeparatesIs(c: char)
    ensures IsSeparator(c) <==> Separates(c)
  {
    Text.WhitespaceIs(c);
  }

  lemma TrimmedTwo(a: seq<string>, b: seq<string>)
    ensures Trimmed(a + b) == Trimmed(a) + Trimmed(b)
  {
    if a == [] {
      assert a + b == b;
    } else {
      assert (a + b)[1..] == a[1..] + b;
      TrimmedTwo(a[1..], b);
    }
  }

  lemma OneBefore(piece: string, x: seq<string>, y: seq<string>)
    ensures [piece] + (x + y) == [piece] + x + y
  {
  }

  lemma {:induction false} SplitTwo(a: string, c: char, b: string)
    requires IsSeparator(c)
    ensures Text.Split(a + [c] + b, IsSeparator) == Text.Split(a, IsSeparator) + Text.Split(b, IsSeparator)
    decreases |a|
  {
    var n := Text.Leading(a, d => !IsSeparator(d));
    if n == |a| {
      Text.SplitUnfold(a, IsSeparator, n);
      Text.SplitAfter(a, c, b, IsSeparator);
    } else {
      var first, more := a[..n], a[n + 1..];
      assert a == first + [a[n]] + more;
      assert a + [c] + b == first + [a[n]] + (more + [c] + b);
      Text.SplitAfter(first, a[n], more, IsSeparator);
      Text.SplitAfter(first, a[n], more + [c] + b, IsSeparator);
      SplitTwo(more, c, b);
      OneBefore(first, Text.Split(more, IsSeparator), Text.Split(b, IsSeparator));
    }
  }

  /** White space, a comma or a semicolon parts the tokens before it from those after it. */
  lemma SeparatorParts(a: string, c: char, b: string)
    requires Separates(c)
    ensures Tokens(a + [c] + b) == Tokens(a) + Tokens(b)
  {
    SeparatesIs(c);
    SplitTwo(a, c, b);
    TrimmedTwo(Text.Split(a, IsSeparator), Text.Split(b, IsSeparator));
  }

  /** Without one of these a text is one token, less the quotes, angle brackets and parentheses around
      it; there is none when nothing is left. */
  lemma OneToken(before: string, core: string, after: string)
    requires forall c :: c in before + core + after ==> !Separates(c)
    requires forall c :: c in before + after ==> c in "\"'<>()"
    requires core == "" || (core[0] !in "\"'<>()" && core[|core| - 1] !in "\"'<>()")
    ensures Tokens(before + core + after) == if core == "" then [] else [core]
  {
    var s := before + core + after;
    forall i | 0 <= i < |s| ensures !IsSeparator(s[i]) {
      SeparatesIs(s[i]);
      assert s[i] in s;
    }
    Text.SplitUnfold(s, IsSeparator, |s|);
    assert forall i :: 0 <= i < |before| ==> before[i] in before + after;
    assert forall i :: 0 <= i < |after| ==> after[i] in before + after;
    Text.TrimmedIs(before, core, after, IsWrapping);
    assert s[..|s|] == s && [s][1..] == [] && Trimmed([]) == [];
  }

  // ------------------------------------------------------------------ refanging

  function Replace(s: string, from: string, to: string): string
    requires from != []
    decreases |s|
  {
    if s == [] then []
    else if from <= s then to + Replace(s[|from|..], from, to)
    else [s[0]] + Replace(s[1..], from, to)
  }

  function Undotted(t: string): string {
    Replace(Replace(Replace(Replace(t, "[.]", "."), "(.)", "."), "[:]", ":"), "[://]", "://")
  }

  predicate SplitAt(s: string, n: nat, k: int) {
    0 <= k < |s| && Text.ByteLength(s[..k]) < n < Text.ByteLength(s[..k + 1])
  }

  /** Byte `n` of a text is not the first of a character. */
  ghost predicate SplitsCharacter(s: string, n: nat) {
    exists k :: SplitAt(s, n, k)
  }

  /** A scheme replaced whatever its case; `None` where taking as many bytes as the scheme has cuts a
      character in two, which stops the program. */
  function Rescheme(s: string, from: string, to: string): Option<string> {
    if Text.ByteLength(s) < Text.ByteLength(from) then Some(s)
    else
      var k := Text.CharsIn(s, Text.ByteLength(from));
      if Text.ByteLength(s[..k]) != Text.ByteLength(from) then None
      else if Text.ToLower(s[..k]) == from then Some(to + s[k..])
      else Some(s)
  }

  function Reschemed(s: string): Option<string> {
    match Rescheme(s, "hxxps://", "https://")
    case None => None
    case Some(r) => Rescheme(r, "hxxp://", "http://")
  }

  function Refang(t: string): Option<string> {
    Reschemed(Undotted(t))
  }

  lemma CutsCharacter(s: string, n: nat)
    requires n <= Text.ByteLength(s)
    ensures Text.ByteLength(s[..Text.CharsIn(s, n)]) != n <==> SplitsCharacter(s, n)
  {
    var k := Text.CharsIn(s, n);
    Text.CharsInBounds(s, n);
    if Text.ByteLength(s[..k]) != n {
      assert s[..|s|] == s;
      assert SplitAt(s, n, k);
    } else if SplitsCharacter(s, n) {
      var j :| SplitAt(s, n, j);
      if j < k {
        Text.ByteLengthSplit(s, j + 1, k);
      } else {
        Text.ByteLengthSplit(s, k, j);
      }
      assert false;
    }
  }

  predicate IsAscii(s: string) {
    forall i :: 0 <= i < |s| ==> s[i] as int < 0x80
  }

  lemma {:induction false} AsciiBytes(s: string)
    requires IsAscii(s)
    ensures Text.ByteLength(s) == |s|
  {
    if s != [] { AsciiBytes(s[1..]); }
  }

  /** A text that begins with ASCII characters is not split among them. */
  lemma AsciiStart(s: string, n: nat)
    requires n <= |s| && IsAscii(s[..n])
    ensures forall m: nat :: m <= n ==> !SplitsCharacter(s, m)
  {
    forall m: nat, k | m <= n ensures !SplitAt(s, m, k) {
      if 0 <= k < |s| {
        assert IsAscii(s[..if k < n then k else n]);
        AsciiBytes(s[..if k < n then k else n]);
        if k < n {
          assert IsAscii(s[..k + 1]);
          AsciiBytes(s[..k + 1]);
        } else {
          Text.ByteLengthSplit(s, n, k);
        }
      }
    }
  }

  lemma ReschemeExactly(s: string, from: string, to: string)
    requires IsAscii(from)
    ensures Rescheme(s, from, to).None? <==> SplitsCharacter(s, |from|)
    ensures Rescheme(s, from, to).Some? && Rescheme(s, from, to) != Some(s) ==>
              |s| >= |from| && Text.ToLower(s[..|from|]) == from && Rescheme(s, from, to) == Some(to + s[|from|..])
  {
    AsciiBytes(from);
    if Text.ByteLength(s) >= |from| {
      CutsCharacter(s, |from|);
    } else {
      forall k ensures !SplitAt(s, |from|, k) {
        if 0 <= k < |s| {
          assert s[..|s|] == s;
          Text.ByteLengthSplit(s, k + 1, |s|);
        }
      }
    }
  }

  lemma LowerAscii(s: string)
    requires IsAscii(Text.ToLower(s))
    ensures IsAscii(s)
  {
    forall i | 0 <= i < |s| ensures s[i] as int < 0x80 {
      assert Text.ToLower(s)[i] as int < 0x80;
    }
  }

  lemma LongScheme(s: string, from: string, to: string)
    requires IsAscii(from) && IsAscii(to) && |from| == |to| <= |s| && Text.ToLower(s[..|from|]) == from
    ensures forall m: nat :: m <= |from| ==> !SplitsCharacter(s, m) && !SplitsCharacter(to + s[|from|..], m)
  {
    LowerAscii(s[..|from|]);
    AsciiStart(s, |from|);
    var r := to + s[|from|..];
    assert r[..|to|] == to;
    AsciiStart(r, |to|);
  }

  /** Two schemes in turn, the second one byte shorter. */
  lemma TwoSchemesStopExactly(s: string, from: string, to: string, from': string, to': string)
    requires IsAscii(from) && IsAscii(to) && IsAscii(from') && |from| == |to| == |from'| + 1
    ensures Rescheme(s, from, to).None? || Rescheme(Rescheme(s, from, to).value, from', to').None?
            <==> SplitsCharacter(s, |from'|) || SplitsCharacter(s, |from|)
  {
    ReschemeExactly(s, from, to);
    var r := Rescheme(s, from, to);
    if r.Some? {
      ReschemeExactly(r.value, from', to');
      if r != Some(s) { LongScheme(s, from, to); }
    }
  }

  lemma ReschemedStopsExactly(s: string)
    ensures Reschemed(s).None? <==> SplitsCharacter(s, 7) || SplitsCharacter(s, 8)
  {
    assert |"hxxps://"| == |"https://"| == 8 && |"hxxp://"| == 7;
    TwoSchemesStopExactly(s, "hxxps://", "https://", "hxxp://", "http://");
  }

  /** Refanging stops the program exactly when the seventh or eighth byte of the undotted token ends
      inside a character. */
  lemma RefangStopsExactly(t: string)
    ensures Refang(t).None? <==> SplitsCharacter(Undotted(t), 7) || SplitsCharacter(Undotted(t), 8)
  {
    ReschemedStopsExactly(Undotted(t));
  }

  lemma {:induction false} ReplaceAscii(s: string, from: string, to: string)
    requires from != [] && IsAscii(s) && IsAscii(to)
    ensures IsAscii(Replace(s, from, to))
    decreases |s|
  {
    if s != [] {
      if from <= s { ReplaceAscii(s[|from|..], from, to); } else { ReplaceAscii(s[1..], from, to); }
    }
  }

  /** An ASCII token is always refanged. */
  lemma AsciiIsRefanged(t: string)
    requires IsAscii(t)
    ensures Refang(t).Some?
  {
    ReplaceAscii(t, "[.]", ".");
    ReplaceAscii(Replace(t, "[.]", "."), "(.)", ".");
    ReplaceAscii(Replace(Replace(t, "[.]", "."), "(.)", "."), "[:]", ":");
    ReplaceAscii(Replace(Replace(Replace(t, "[.]", "."), "(.)", "."), "[:]", ":"), "[://]", "://");
    var s := Undotted(t);
    RefangStopsExactly(t);
    forall n, k ensures !SplitAt(s, n, k) {
      if 0 <= k < |s| {
        AsciiBytes(s[..k]);
        AsciiBytes(s[..k + 1]);
      }
    }
  }

  lemma {:induction false} NothingToReplace(s: string, from: string, to: string)
    requires from != [] && from[0] !in s
    ensures Replace(s, from, to) == s
  {
    if s != [] {
      assert s[0] in s;
      NothingToReplace(s[1..], from, to);
    }
  }

  /** A token without brackets is left as it is. */
  lemma NothingUndotted(t: string)
    requires '[' !in t && '(' !in t
    ensures Undotted(t) == t
  {
    NothingToReplace(t, "[.]", ".");
    NothingToReplace(t, "(.)", ".");
    NothingToReplace(t, "[:]", ":");
    NothingToReplace(t, "[://]", "://");
  }

  /** Seven bytes of a token end inside a character of two bytes behind six letters. */
  lemma AccentIsSplit(t: string)
    requires |t| == 7 && t[6] == '\U{00E9}' && forall i :: 0 <= i < 6 ==> t[i] == 'a'
    ensures SplitAt(t, 7, 6)
  {
    AsciiBytes(t[..6]);
    Text.ByteLengthSplit(t, 6, 7);
    assert t[6..7] == [t[6]] && t[6..7][1..] == [];
  }

  /** One token that stops it: six letters, then a character of two bytes. */
  lemma AccentStopsRefang()
    ensures Refang("aaaaaa\U{00E9}").None?
  {
    var t := "aaaaaa\U{00E9}";
    NothingUndotted(t);
    AccentIsSplit(t);
    RefangStopsExactly(t);
  }
}
