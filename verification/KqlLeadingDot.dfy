/** The dot that starts a text: what crates/kql-parser/src/policy.rs finds, line by line, and what the
    grammar reads first. */
module KqlLeadingDot {
  import opened Wrappers
  import Text
  import opened KqlText
  import opened KqlPosition

  /** Who reads a text: the grammar, or the loop over its lines. */
  datatype Reader = Grammar | Lines

  /** The grammar skips six characters, the loop all white space and byte order marks. */
  predicate Skips(c: char, reader: Reader) {
    if reader.Grammar? then IsBlank(c) else Text.IsWhitespace(c) || c == BOM
  }

  lemma LinesSkipIs(c: char)
    ensures Skips(c, Lines) <==> c in Text.WHITE_SPACE || c as int == 65279
  {
    Text.WhitespaceIs(c);
  }

  /** In the grammar a line feed or a carriage return ends a comment, for the loop a line feed. */
  predicate EndsComment(c: char, reader: Reader) {
    c == '\n' || (reader.Grammar? && c == '\r')
  }

  /** A comment that begins at `i` still runs at `j`. */
  predicate InComment(text: string, i: int, j: int, reader: Reader) {
    0 <= i <= j < |text| && CommentAt(text, i) && forall m :: i <= m <= j ==> !EndsComment(text[m], reader)
  }

  ghost predicate Skippable(text: string, j: int, reader: Reader) {
    0 <= j < |text| && (Skips(text[j], reader) || exists i :: InComment(text, i, j, reader))
  }

  /** The first character that is neither blank nor in a comment. */
  ghost predicate IsFirst(text: string, k: int, reader: Reader) {
    0 <= k < |text| && !Skippable(text, k, reader) && forall j :: 0 <= j < k ==> Skippable(text, j, reader)
  }

  /** `p` is the position of that character if it is a dot, and no position if it is none. */
  ghost predicate IsLeadingDot(text: string, p: Option<Position>, reader: Reader) {
    && (p.Some? ==> exists k :: IsFirst(text, k, reader) && text[k] == '.' && p.value == PositionOf(text, k))
    && (p.None? ==> forall k :: IsFirst(text, k, reader) ==> text[k] != '.')
  }

  /** The first code at or after a line's start, where everything before is skipped. */
  lemma FirstInLine(text: string, start: nat, k: nat)
    requires StartsLine(text, start) && start <= k < |text|
    requires forall j :: 0 <= j < start ==> Skippable(text, j, Lines)
    requires forall j :: start <= j < k ==> Skips(text[j], Lines)
    requires !Skips(text[k], Lines) && !CommentAt(text, k)
    ensures IsFirst(text, k, Lines)
    ensures forall j :: IsFirst(text, j, Lines) ==> j == k
  {
    assert !Skippable(text, k, Lines);
  }

  lemma CommentLine(text: string, i: nat, e: nat)
    requires i < e <= |text| && CommentAt(text, i) && forall j :: i <= j < e ==> text[j] != '\n'
    ensures forall j :: i <= j < e ==> Skippable(text, j, Lines)
  {
    forall j | i <= j < e ensures Skippable(text, j, Lines) { assert InComment(text, i, j, Lines); }
  }

  /** The end of a line as `str::lines` shows it: a carriage return before the line feed is not
      part of the line. */
  function ShownEnd(text: string, start: nat): (e: nat)
    requires start <= |text|
    ensures start <= e <= LineEnd(text, start)
    ensures forall j :: e <= j < LineEnd(text, start) ==> text[j] == '\r'
  {
    var e := LineEnd(text, start);
    if start < e < |text| && text[e - 1] == '\r' then e - 1 else e
  }

  /** What trimming the shown line says about the text. */
  lemma ShownLine(text: string, start: nat)
    requires start <= |text|
    ensures var shown := text[start..ShownEnd(text, start)];
      var trimmed := Text.TrimStart(shown, c => Skips(c, Lines));
      var k := start + (|shown| - |trimmed|);
      && (forall j :: start <= j < k ==> Skips(text[j], Lines))
      && (trimmed == [] ==> forall j :: start <= j < LineEnd(text, start) ==> Skips(text[j], Lines))
      && (trimmed != [] ==> k < LineEnd(text, start) && trimmed[0] == text[k] && !Skips(text[k], Lines))
      && (trimmed != [] ==> CommentAt(trimmed, 0) == CommentAt(text, k))
  {
    var e := ShownEnd(text, start);
    var shown := text[start..e];
    var n := Text.Leading(shown, c => Skips(c, Lines));
    assert forall j :: 0 <= j < |shown| ==> shown[j] == text[start + j];
    assert forall j :: start <= j < start + n ==> text[j] == shown[j - start];
    var trimmed := shown[n..];
    if |trimmed| > 1 { assert trimmed[1] == text[start + n + 1]; }
    assert Skips('\r', Lines);
  }

  /** The loop over lines finds the leading dot of a text whose comments end with their lines. */
  method LeadingDot(text: string) returns (p: Option<Position>)
    ensures IsLeadingDot(text, p, Lines)
  {
    var start, line := 0, 0;
    while start < |text|
      invariant StartsLine(text, start) && line + 1 == PositionOf(text, start).line
      invariant forall j :: 0 <= j < start ==> Skippable(text, j, Lines)
    {
      var end := LineEnd(text, start);
      var shown := text[start..ShownEnd(text, start)];
      var trimmed := Text.TrimStart(shown, c => Skips(c, Lines));
      var k := start + (|shown| - |trimmed|);
      ShownLine(text, start);
      if trimmed != [] && !CommentAt(trimmed, 0) {
        FirstInLine(text, start, k);
        InLine(text, start, k);
        if trimmed[0] == '.' {
          return Some(Position(line + 1, |shown| - |trimmed| + 1));
        }
        return None;
      }
      if trimmed != [] { CommentLine(text, k, end); }
      if end == |text| { return None; }
      InLine(text, start, end);
      OneOn(text, end);
      line := line + 1;
      start := end + 1;
    }
    p := None;
  }

  // ------------------------------------------------------------------ the grammar's first character

  lemma InCommentShift(text: string, n: nat, i: int, j: int, reader: Reader)
    requires n <= |text|
    ensures n <= i ==> InComment(text, i, j, reader) == InComment(text[n..], i - n, j - n, reader)
  {
    var s := text[n..];
    assert forall m :: n <= m < |text| ==> text[m] == s[m - n];
    if n <= i && InComment(s, i - n, j - n, reader) {
      forall m | i <= m <= j ensures !EndsComment(text[m], reader) { assert !EndsComment(s[m - n], reader); }
    }
  }

  /** Where no comment runs on, skipping goes on as in the rest of the text. */
  lemma SkippableShift(text: string, n: nat, j: int, reader: Reader)
    requires n <= |text| && forall i, m :: 0 <= i < n <= m ==> !InComment(text, i, m, reader)
    ensures n <= j ==> Skippable(text, j, reader) == Skippable(text[n..], j - n, reader)
  {
    if n <= j < |text| {
      assert text[j] == text[n..][j - n];
      var d := j - n;
      if i :| InComment(text, i, j, reader) { InCommentShift(text, n, i, j, reader); }
      if i :| InComment(text[n..], i, d, reader) { InCommentShift(text, n, i + n, j, reader); }
    }
  }

  lemma FirstShift(text: string, n: nat, k: int, reader: Reader)
    requires n <= |text| && forall i, m :: 0 <= i < n <= m ==> !InComment(text, i, m, reader)
    requires forall j :: 0 <= j < n ==> Skippable(text, j, reader)
    ensures IsFirst(text, k, reader) <==> n <= k && IsFirst(text[n..], k - n, reader)
  {
    var rest := text[n..];
    forall j | n <= j ensures Skippable(text, j, reader) == Skippable(rest, j - n, reader) {
      SkippableShift(text, n, j, reader);
    }
    forall d | 0 <= d ensures Skippable(rest, d, reader) == Skippable(text, d + n, reader) {
      SkippableShift(text, n, d + n, reader);
    }
  }

  /** How far a comment runs in the grammar. */
  function CommentEnd(text: string, i: nat): (e: nat)
    requires i <= |text|
    ensures i <= e <= |text| && (forall m :: i <= m < e ==> !EndsComment(text[m], Grammar))
    ensures e < |text| ==> EndsComment(text[e], Grammar)
    decreases |text| - i
  {
    if i == |text| || EndsComment(text[i], Grammar) then i else CommentEnd(text, i + 1)
  }

  lemma {:induction false} CommentCode(s: string, e: nat)
    requires e <= |s| && forall m :: 0 <= m < e ==> !EndsComment(s[m], Grammar)
    requires e < |s| ==> EndsComment(s[e], Grammar)
    ensures Code(s, true) == Code(s[e..], false)
    decreases e
  {
    if e == 0 {
      assert s[0..] == s;
      if s != [] { assert IsBlank(s[0]) && !CommentAt(s, 0); }
    } else {
      assert s[1..][e - 1..] == s[e..];
      CommentCode(s[1..], e - 1);
    }
  }

  lemma CommentSkipped(text: string)
    requires CommentAt(text, 0)
    ensures var e := CommentEnd(text, 0);
      && e >= 2 && Code(text, false) == Code(text[e..], false)
      && (forall j :: 0 <= j < e ==> Skippable(text, j, Grammar))
      && (forall i, m :: 0 <= i < e <= m ==> !InComment(text, i, m, Grammar))
  {
    var e := CommentEnd(text, 0);
    assert !EndsComment(text[0], Grammar) && !EndsComment(text[1], Grammar);
    assert e >= 2;
    assert text[2..][e - 2..] == text[e..];
    CommentCode(text[2..], e - 2);
    forall j | 0 <= j < e ensures Skippable(text, j, Grammar) { assert InComment(text, 0, j, Grammar); }
  }

  /** The first character the grammar reads of a text begins its code; a text without one has none. */
  lemma {:induction false} FirstIsCode(text: string)
    ensures forall k :: IsFirst(text, k, Grammar) ==> Code(text, false) != [] && Code(text, false)[0] == text[k]
    ensures (forall k :: !IsFirst(text, k, Grammar)) ==> Code(text, false) == []
    decreases |text|
  {
    if text != [] {
      if IsBlank(text[0]) {
        FirstBelow(text, 1);
      } else if CommentAt(text, 0) {
        CommentSkipped(text);
        FirstBelow(text, CommentEnd(text, 0));
      } else {
        assert !Skippable(text, 0, Grammar);
        assert IsFirst(text, 0, Grammar);
      }
    }
  }

  lemma {:induction false} FirstBelow(text: string, n: nat)
    requires 0 < n <= |text| && Code(text, false) == Code(text[n..], false)
    requires forall i, m :: 0 <= i < n <= m ==> !InComment(text, i, m, Grammar)
    requires forall j :: 0 <= j < n ==> Skippable(text, j, Grammar)
    ensures forall k :: IsFirst(text, k, Grammar) ==> Code(text, false) != [] && Code(text, false)[0] == text[k]
    ensures (forall k :: !IsFirst(text, k, Grammar)) ==> Code(text, false) == []
    decreases |text|, 0
  {
    var rest := text[n..];
    FirstIsCode(rest);
    forall k ensures IsFirst(text, k, Grammar) <==> n <= k && IsFirst(rest, k - n, Grammar) {
      FirstShift(text, n, k, Grammar);
    }
    forall k ensures IsFirst(rest, k, Grammar) ==> IsFirst(text, k + n, Grammar) {
      FirstShift(text, n, k + n, Grammar);
    }
  }

  /** The grammar reads a dot first. */
  predicate StartsWithDot(text: string) {
    Code(text, false) != [] && Code(text, false)[0] == '.'
  }

  // ------------------------------------------------------------------ where the two differ

  /** A comment that runs on at `k` for the loop, and that a carriage return has ended before. */
  ghost predicate BehindReturn(text: string, k: int) {
    exists i, r :: InComment(text, i, k, Lines) && i < r < k && text[r] == '\r'
  }

  /** The grammar's first character is white space it does not skip, or stands behind a carriage return
      on a leading comment's line. */
  ghost predicate IsHidden(text: string, k: int) {
    IsFirst(text, k, Grammar) && (IsForeign(text[k]) || BehindReturn(text, k))
  }

  /** Such a character is a dot, or has a dot after what hides it. */
  ghost predicate IsMisread(text: string) {
    exists k :: IsHidden(text, k) && (text[k] == '.' || exists l :: IsFirst(text, l, Lines) && text[l] == '.')
  }

  /** These are the first characters that the loop skips. */
  lemma HiddenIsSkipped(text: string, k: int)
    ensures IsHidden(text, k) <==> IsFirst(text, k, Grammar) && Skippable(text, k, Lines)
  {
    if IsFirst(text, k, Grammar) {
      if i :| InComment(text, i, k, Lines) {
        assert !InComment(text, i, k, Grammar);
        var r :| i <= r <= k && EndsComment(text[r], Grammar);
        assert BehindReturn(text, k);
      }
    }
  }

  lemma FirstIsUnique(text: string, j: int, k: int, reader: Reader)
    requires IsFirst(text, j, reader) && IsFirst(text, k, reader)
    ensures j == k
  {
  }

  /** Whatever the grammar skips the line splitter skips too. */
  lemma SkippedByLines(text: string, j: int)
    requires Skippable(text, j, Grammar)
    ensures Skippable(text, j, Lines)
  {
    if i :| InComment(text, i, j, Grammar) { assert InComment(text, i, j, Lines); }
  }

  lemma {:induction false} SomeFirst(text: string, n: nat, reader: Reader)
    requires n < |text| && !Skippable(text, n, reader)
    ensures exists k :: 0 <= k <= n && IsFirst(text, k, reader)
    decreases n
  {
    if j :| 0 <= j < n && !Skippable(text, j, reader) {
      SomeFirst(text, j, reader);
    } else {
      assert IsFirst(text, n, reader);
    }
  }

  /** Unless it is hidden, the grammar's first character is the line splitter's, and the other way
      round. */
  lemma FirstsAgree(text: string)
    requires forall k :: !IsHidden(text, k)
    ensures forall k :: IsFirst(text, k, Grammar) <==> IsFirst(text, k, Lines)
  {
    forall k | IsFirst(text, k, Grammar) ensures IsFirst(text, k, Lines) {
      HiddenIsSkipped(text, k);
      forall j | 0 <= j < k ensures Skippable(text, j, Lines) { SkippedByLines(text, j); }
    }
    forall k | IsFirst(text, k, Lines) ensures IsFirst(text, k, Grammar) {
      if Skippable(text, k, Grammar) { SkippedByLines(text, k); }
      SomeFirst(text, k, Grammar);
      var j :| 0 <= j <= k && IsFirst(text, j, Grammar);
      HiddenIsSkipped(text, j);
      assert j == k;
    }
  }

  /** A hidden first character comes before the line splitter's, if that has one. */
  lemma HiddenIsEarlier(text: string, k: int, l: int)
    requires IsHidden(text, k) && IsFirst(text, l, Lines)
    ensures k < l
  {
    HiddenIsSkipped(text, k);
    if l < k { SkippedByLines(text, l); }
  }

  lemma HiddenDecides(text: string, p: Option<Position>, k: int)
    requires IsLeadingDot(text, p, Lines) && IsHidden(text, k)
    ensures IsLeadingDot(text, p, Grammar) <==> !IsMisread(text)
  {
    HiddenIsSkipped(text, k);
    forall j | IsFirst(text, j, Grammar) ensures j == k { FirstIsUnique(text, j, k, Grammar); }
    if p.Some? {
      var l :| IsFirst(text, l, Lines) && text[l] == '.' && p.value == PositionOf(text, l);
      HiddenIsEarlier(text, k, l);
      PositionsGrow(text, k, l);
      assert IsMisread(text);
    } else {
      assert IsMisread(text) <==> text[k] == '.';
    }
  }

  /** What the loop finds is what the grammar reads first, if and only if no hidden first character is
      a dot or has a dot after what hides it. */
  lemma LeadingDotExactly(text: string, p: Option<Position>)
    requires IsLeadingDot(text, p, Lines)
    ensures IsLeadingDot(text, p, Grammar) <==> !IsMisread(text)
  {
    if k :| IsHidden(text, k) {
      HiddenDecides(text, p, k);
    } else {
      FirstsAgree(text);
    }
  }

  /** A carriage return in a leading comment, with no line feed after it. */
  ghost predicate IsLoneReturn(text: string, r: int) {
    && 0 <= r < |text| && text[r] == '\r' && !(r + 1 < |text| && text[r + 1] == '\n')
    && (exists i :: InComment(text, i, r, Lines))
    && forall j :: 0 <= j <= r ==> Skippable(text, j, Lines)
  }

  /** Among the leading comments only a lone carriage return hides anything. */
  lemma HiddenBehindReturn(text: string, k: int)
    requires IsHidden(text, k) && !IsForeign(text[k])
    ensures exists r :: 0 <= r < k && IsLoneReturn(text, r)
  {
    var i, r :| InComment(text, i, k, Lines) && i < r < k && text[r] == '\r';
    assert text[r + 1] != '\n';
    assert InComment(text, i, r, Lines);
    forall j | 0 <= j <= r ensures Skippable(text, j, Lines) { SkippedByLines(text, j); }
    assert IsLoneReturn(text, r);
  }

  /** The loop finds a dot. */
  ghost predicate FindsDot(text: string) {
    exists k :: IsFirst(text, k, Lines) && text[k] == '.'
  }

  /** Without one, and unless the grammar starts with white space it does not skip, the loop finds
      exactly the dot that the grammar reads first. */
  lemma LeadingDotIsRead(text: string)
    requires forall r :: !IsLoneReturn(text, r)
    requires forall k :: IsFirst(text, k, Grammar) ==> !IsForeign(text[k])
    ensures FindsDot(text) <==> StartsWithDot(text)
    ensures forall p :: IsLeadingDot(text, p, Lines) ==> IsLeadingDot(text, p, Grammar)
  {
    forall k ensures !IsHidden(text, k) {
      if IsHidden(text, k) { HiddenBehindReturn(text, k); }
    }
    FirstsAgree(text);
    FirstIsCode(text);
    forall p | IsLeadingDot(text, p, Lines) ensures IsLeadingDot(text, p, Grammar) {
      LeadingDotExactly(text, p);
    }
  }

  // ------------------------------------------------------------------ texts that differ

  lemma ReadingOf(text: string, k: nat)
    requires k < |text| && IsFirst(text, k, Lines)
    ensures forall p :: IsLeadingDot(text, p, Lines) ==>
              p == if text[k] == '.' then Some(PositionOf(text, k)) else None
  {
    forall j | IsFirst(text, j, Lines) ensures j == k { FirstIsUnique(text, j, k, Lines); }
  }

  lemma AfterReturn()
    ensures Code("\rT\n.x", true) == "T.x"
  {
    assert "\rT\n.x"[1..] == "T\n.x" && "T\n.x"[1..] == "\n.x" && "\n.x"[1..] == ".x" && ".x"[1..] == "x"
        && "x"[1..] == "";
    assert Code("x", false) == "x";
    assert Code(".x", false) == ".x";
    assert Code("\n.x", false) == ".x";
    assert Code("T\n.x", false) == "T.x";
  }

  lemma ReturnEndsComment()
    ensures Code("// c\rT\n.x", false) == "T.x"
  {
    var text := "// c\rT\n.x";
    assert text[2..] == " c\rT\n.x" && " c\rT\n.x"[1..] == "c\rT\n.x" && "c\rT\n.x"[1..] == "\rT\n.x";
    assert Code("\rT\n.x", true) == "T.x" by { AfterReturn(); }
    assert Code("c\rT\n.x", true) == "T.x";
    assert Code(" c\rT\n.x", true) == "T.x";
  }

  /** The grammar reads `T.x`; the loop takes the second line's dot for a management command. */
  lemma DotFoundBehindReturn(p: Option<Position>)
    requires IsLeadingDot("// c\rT\n.x", p, Lines)
    ensures p.Some? && Code("// c\rT\n.x", false) == "T.x"
  {
    var text := "// c\rT\n.x";
    ReturnEndsComment();
    CommentLine(text, 0, 6);
    assert Skippable(text, 6, Lines);
    FirstInLine(text, 7, 7);
    ReadingOf(text, 7);
  }

  /** The grammar reads a command; the loop takes all of it for a comment. */
  lemma DotMissedBehindReturn(p: Option<Position>)
    requires IsLeadingDot("// c\r.show", p, Lines)
    ensures p.None? && StartsWithDot("// c\r.show")
  {
    var text := "// c\r.show";
    CommentLine(text, 0, |text|);
    forall j | 0 <= j < 4 ensures Skippable(text, j, Grammar) { assert InComment(text, 0, j, Grammar); }
    assert EndsComment(text[4], Grammar) && forall i :: 0 < i < |text| ==> text[i] != '/' || text[i - 1] == '/';
    assert forall i :: 0 <= i < 5 ==> !InComment(text, i, 5, Grammar);
    assert IsFirst(text, 5, Grammar);
    FirstIsCode(text);
  }

  /** White space that the grammar does not skip, an em space for one, starts a text that the grammar
      cannot read; the loop skips it and takes the dot behind it for a management command. */
  lemma DotFoundBehindSpace(c: char, p: Option<Position>)
    requires IsForeign(c) && IsLeadingDot([c] + ".show", p, Lines)
    ensures p == Some(Position(1, 2)) && !StartsWithDot([c] + ".show") && IsForeign('\U{2003}')
  {
    var text := [c] + ".show";
    assert text[0] == c && text[1] == '.';
    FirstInLine(text, 0, 1);
    InLine(text, 0, 1);
    ReadingOf(text, 1);
    CodeStep(text, false);
  }
}
