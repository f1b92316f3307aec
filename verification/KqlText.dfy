/** The row bound of crates/kql-parser/src/policy.rs: where a statement's code ends, and what is
    appended to it. */
module KqlText {
  import Text

  const BOM := '\U{FEFF}'

  const NO_BREAK_SPACE := '\U{00A0}'

  /** The characters the grammar skips between tokens. */
  predicate IsBlank(c: char) {
    c in {' ', '\t', '\r', '\n', BOM, NO_BREAK_SPACE}
  }

  /** Space, tab, carriage return, line feed, byte order mark and no-break space, by number. */
  lemma BlankIs(c: char)
    ensures IsBlank(c) <==> c as int in {32, 9, 13, 10, 65279, 160}
  {
    if c as int in {32, 9, 13, 10, 65279, 160} { assert c == ((c as int) as char); }
  }

  /** White space that the code skips and the grammar does not. */
  predicate IsForeign(c: char) {
    Text.IsWhitespace(c) && !IsBlank(c)
  }

  // ------------------------------------------------------------------ the code of a text

  predicate CommentAt(s: string, i: nat) {
    i + 1 < |s| && s[i] == '/' && s[i + 1] == '/'
  }

  /** What the grammar reads of a text: no blanks, and no comments, which run from `//` to the next
      line feed or carriage return. */
  function Code(s: string, inComment: bool): string
    decreases |s|
  {
    if s == [] then []
    else if inComment then Code(s[1..], s[0] != '\n' && s[0] != '\r')
    else if CommentAt(s, 0) then Code(s[2..], true)
    else if IsBlank(s[0]) then Code(s[1..], false)
    else [s[0]] + Code(s[1..], false)
  }

  /** Whether the end of the text lies inside a comment. */
  function EndsInComment(s: string, inComment: bool): bool
    decreases |s|
  {
    if s == [] then inComment
    else if inComment then EndsInComment(s[1..], s[0] != '\n' && s[0] != '\r')
    else if CommentAt(s, 0) then EndsInComment(s[2..], true)
    else EndsInComment(s[1..], false)
  }

  /** Cutting between two texts cuts no `//` in two. */
  predicate CleanCut(a: string, b: string) {
    !(a != [] && b != [] && a[|a| - 1] == '/' && b[0] == '/')
  }

  /** Reading one character, or one `//`, of a text. */
  function Skip(s: string, inComment: bool): (n: nat)
    requires s != []
    ensures 1 <= n <= |s|
  {
    if !inComment && CommentAt(s, 0) then 2 else 1
  }

  function After(s: string, inComment: bool): bool
    requires s != []
  {
    if inComment then s[0] != '\n' && s[0] != '\r' else CommentAt(s, 0)
  }

  function Read(s: string, inComment: bool): string
    requires s != []
  {
    if inComment || CommentAt(s, 0) || IsBlank(s[0]) then [] else [s[0]]
  }

  lemma CodeStep(s: string, inComment: bool)
    requires s != []
    ensures var n, c := Skip(s, inComment), After(s, inComment);
      Code(s, inComment) == Read(s, inComment) + Code(s[n..], c)
          && EndsInComment(s, inComment) == EndsInComment(s[n..], c)
  {
  }

  lemma {:induction false} CodeConcat(a: string, b: string, inComment: bool)
    requires CleanCut(a, b)
    ensures Code(a + b, inComment) == Code(a, inComment) + Code(b, EndsInComment(a, inComment))
    ensures EndsInComment(a + b, inComment) == EndsInComment(b, EndsInComment(a, inComment))
    decreases |a|
  {
    if a == [] {
      assert a + b == b;
    } else {
      var ab := a + b;
      assert CommentAt(ab, 0) == CommentAt(a, 0) && ab[0] == a[0];
      var n, c := Skip(a, inComment), After(a, inComment);
      assert ab[n..] == a[n..] + b;
      CodeStep(ab, inComment);
      CodeStep(a, inComment);
      CodeConcat(a[n..], b, c);
    }
  }

  // ------------------------------------------------------------------ the cut

  /** The length of the first line of `s`, its line feed included. */
  function LineLength(s: string): (n: nat)
    requires s != []
    ensures 1 <= n <= |s|
    ensures forall i :: 0 <= i < n - 1 ==> s[i] != '\n'
    ensures s[n - 1] == '\n' || n == |s|
  {
    if s[0] == '\n' || |s| == 1 then 1 else 1 + LineLength(s[1..])
  }

  /** Where the first `//` of a line is, or the line's length. */
  function CommentStart(line: string): (n: nat)
    ensures n <= |line|
    ensures forall i :: 0 <= i < n ==> !CommentAt(line, i)
    ensures n < |line| ==> CommentAt(line, n)
  {
    if line == [] || CommentAt(line, 0) then 0
    else
      var n := 1 + CommentStart(line[1..]);
      assert forall i :: 1 <= i < n ==> CommentAt(line, i) == CommentAt(line[1..], i - 1);
      n
  }

  /** The length of a line up to its comment, without the blanks before it. */
  function CodeLength(line: string): nat {
    Text.TrimmedLength(line[..CommentStart(line)], Text.IsWhitespace)
  }

  /** How much of the text after the last leaf token is kept: up to the last line that has
      something before its comment. */
  function Cut(tail: string): (n: nat)
    ensures n <= |tail|
    decreases |tail|
  {
    if tail == [] then 0
    else
      var n := LineLength(tail);
      var rest := Cut(tail[n..]);
      if rest > 0 then n + rest else CodeLength(tail[..n])
  }

  /** A token pair of the parser: where it starts and ends, and the pairs inside it. */
  datatype Pair = Pair(start: nat, end: nat, inner: seq<Pair>)

  predicate Nested(p: Pair) {
    && p.start <= p.end
    && forall i :: 0 <= i < |p.inner| ==> Nested(p.inner[i]) && p.start <= p.inner[i].start && p.inner[i].end <= p.end
  }

  function Max(a: nat, b: nat): nat {
    if a < b then b else a
  }

  /** Where the leaves among some pairs, and inside them, end. */
  function LeafEnds(ps: seq<Pair>): set<nat>
    decreases ps
  {
    if ps == [] then {}
    else (if ps[0].inner == [] then {ps[0].end} else LeafEnds(ps[0].inner)) + LeafEnds(ps[1..])
  }

  /** The greatest of them, or `least` when it is greater. */
  function LastLeafEnd(ps: seq<Pair>, least: nat): nat
    decreases ps
  {
    if ps == [] then least
    else LastLeafEnd(ps[1..], if ps[0].inner == [] then Max(least, ps[0].end) else LastLeafEnd(ps[0].inner, least))
  }

  lemma {:induction false} LastLeafIsGreatest(ps: seq<Pair>, least: nat)
    ensures LastLeafEnd(ps, least) in LeafEnds(ps) + {least}
    ensures forall e :: e in LeafEnds(ps) + {least} ==> e <= LastLeafEnd(ps, least)
    decreases ps
  {
    if ps != [] {
      if ps[0].inner != [] { LastLeafIsGreatest(ps[0].inner, least); }
      LastLeafIsGreatest(ps[1..], if ps[0].inner == [] then Max(least, ps[0].end) else LastLeafEnd(ps[0].inner, least));
    }
  }

  lemma {:induction false} LeavesInside(ps: seq<Pair>, start: nat, end: nat)
    requires forall i :: 0 <= i < |ps| ==> Nested(ps[i]) && start <= ps[i].start && ps[i].end <= end
    ensures forall e :: e in LeafEnds(ps) ==> start <= e <= end
    decreases ps
  {
    if ps != [] {
      if ps[0].inner != [] { LeavesInside(ps[0].inner, start, end); }
      LeavesInside(ps[1..], start, end);
    }
  }

  /** A statement's last leaf: the greatest end of a leaf inside it, or its start without leaves. */
  lemma LastLeafOfStatement(stmt: Pair)
    requires Nested(stmt)
    ensures stmt.start <= LastLeafEnd(stmt.inner, stmt.start) <= stmt.end
    ensures LastLeafEnd(stmt.inner, stmt.start) in LeafEnds(stmt.inner) + {stmt.start}
    ensures forall e :: e in LeafEnds(stmt.inner) + {stmt.start} ==> e <= LastLeafEnd(stmt.inner, stmt.start)
  {
    LastLeafIsGreatest(stmt.inner, stmt.start);
    LeavesInside(stmt.inner, stmt.start, stmt.end);
    assert stmt.start in LeafEnds(stmt.inner) + {stmt.start};
  }

  /** Where the cut is, counted from the start of the whole text: `end` when nothing below has code. */
  function EndFrom(left: string, offset: nat, end: nat): nat {
    if Cut(left) > 0 then offset + Cut(left) else end
  }

  lemma NextLine(left: string, offset: nat, end: nat)
    requires left != []
    ensures var n, k := LineLength(left), CodeLength(left[..LineLength(left)]);
      EndFrom(left, offset, end) == EndFrom(left[n..], offset + n, if k > 0 then offset + k else end)
  {
  }

  /** The offset just after a statement's last token: its last leaf, then the last line of what
      follows that has something before its comment. */
  method StatementEnd(text: string, stmt: Pair) returns (end: nat)
    requires Nested(stmt) && stmt.end <= |text|
    ensures var lastLeaf := LastLeafEnd(stmt.inner, stmt.start);
      lastLeaf <= stmt.end && end == lastLeaf + Cut(text[lastLeaf..stmt.end])
  {
    LastLeafOfStatement(stmt);
    var lastLeaf := LastLeafEnd(stmt.inner, stmt.start);
    var left := text[lastLeaf..stmt.end];
    ghost var tail := left;
    var offset: nat := lastLeaf;
    end := lastLeaf;
    while left != []
      invariant EndFrom(tail, lastLeaf, lastLeaf) == EndFrom(left, offset, end)
      decreases |left|
    {
      var n := LineLength(left);
      var line := left[..n];
      var code := Text.TrimEnd(line[..CommentStart(line)], Text.IsWhitespace);
      NextLine(left, offset, end);
      if code != [] {
        end := offset + |code|;
      }
      offset := offset + n;
      left := left[n..];
    }
  }

  // ------------------------------------------------------------------ what the cut keeps

  lemma {:induction false} NoCommentNoChange(s: string)
    requires forall i :: 0 <= i < |s| ==> !CommentAt(s, i)
    ensures !EndsInComment(s, false)
    decreases |s|
  {
    if s != [] {
      assert forall i :: 0 <= i < |s[1..]| ==> CommentAt(s[1..], i) == CommentAt(s, i + 1);
      NoCommentNoChange(s[1..]);
    }
  }

  lemma {:induction false} LineFeedEndsComment(s: string, inComment: bool)
    requires s != [] && s[|s| - 1] == '\n'
    ensures !EndsInComment(s, inComment)
    decreases |s|
  {
    if !inComment && CommentAt(s, 0) {
      LineFeedEndsComment(s[2..], true);
    } else if |s| > 1 {
      LineFeedEndsComment(s[1..], inComment && s[0] != '\n' && s[0] != '\r');
    }
  }

  lemma {:induction false} BlankCode(s: string)
    requires forall i :: 0 <= i < |s| ==> IsBlank(s[i])
    ensures Code(s, false) == [] && !EndsInComment(s, false)
    decreases |s|
  {
    if s != [] { BlankCode(s[1..]); }
  }

  lemma LineCutClean(line: string)
    ensures var n := CodeLength(line);
      n <= CommentStart(line) && CleanCut(line[..n], line[n..]) && !EndsInComment(line[..n], false)
    ensures var n := CodeLength(line); n > 0 ==> !Text.IsWhitespace(line[n - 1])
    ensures forall i :: CodeLength(line) <= i < CommentStart(line) ==> Text.IsWhitespace(line[i])
  {
    var c := CommentStart(line);
    var n := CodeLength(line);
    var kept := line[..n];
    assert forall i :: 0 <= i < n ==> CommentAt(kept, i) ==> CommentAt(line, i);
    NoCommentNoChange(kept);
    assert forall i :: 0 <= i < c ==> line[..c][i] == line[i];
    assert n > 0 && CommentAt(line, n - 1) ==> false;
  }

  /** Of white space the grammar reads what is foreign to it. */
  lemma {:induction false} DropSpaces(line: string, n: nat, c: nat)
    requires n <= c <= |line| && forall i :: n <= i < c ==> Text.IsWhitespace(line[i])
    ensures Code(line[n..], false) == [] <==>
              Code(line[c..], false) == [] && forall i :: n <= i < c ==> !IsForeign(line[i])
    decreases c - n
  {
    if n < c {
      assert line[n..][1..] == line[n + 1..];
      assert !CommentAt(line[n..], 0);
      DropSpaces(line, n + 1, c);
    }
  }

  /** Between a line's code and its comment stands white space foreign to the grammar. */
  predicate HasForeign(line: string) {
    exists i :: CodeLength(line) <= i < CommentStart(line) && IsForeign(line[i])
  }

  /** A line cut before its comment leaves white space and the comment behind. */
  lemma LineRest(line: string)
    ensures var n := CodeLength(line);
      n <= |line|
          && (Code(line[n..], false) == [] <==> Code(line[CommentStart(line)..], false) == [] && !HasForeign(line))
  {
    LineCutClean(line);
    DropSpaces(line, CodeLength(line), CommentStart(line));
  }

  lemma Slices(s: string, n: nat, r: nat)
    requires n + r <= |s|
    ensures s[..n + r] == s[..n] + s[n..][..r]
    ensures s[n + r..] == s[n..][r..]
  {
  }

  lemma CutAfterLine(tail: string, n: nat, rest: nat)
    requires 0 < n && 0 < rest && n + rest <= |tail| && tail[n - 1] == '\n'
    requires !EndsInComment(tail[n..][..rest], false) && CleanCut(tail[n..][..rest], tail[n..][rest..])
    ensures !EndsInComment(tail[..n + rest], false) && CleanCut(tail[..n + rest], tail[n + rest..])
  {
    Slices(tail, n, rest);
    LineFeedEndsComment(tail[..n], false);
    CodeConcat(tail[..n], tail[n..][..rest], false);
  }

  lemma CutInLine(tail: string, n: nat)
    requires tail != [] && n == LineLength(tail)
    ensures var k := CodeLength(tail[..n]); k <= n && !EndsInComment(tail[..k], false) && CleanCut(tail[..k], tail[k..])
  {
    var line := tail[..n];
    var k := CodeLength(line);
    LineCutClean(line);
    assert tail[..k] == line[..k];
    assert k < n ==> tail[k..][0] == line[k..][0];
  }

  /** The cut of a text is clean and never inside a comment. */
  lemma {:induction false} CutOutsideComment(tail: string)
    ensures !EndsInComment(tail[..Cut(tail)], false)
    ensures CleanCut(tail[..Cut(tail)], tail[Cut(tail)..])
    decreases |tail|
  {
    if tail != [] {
      var n := LineLength(tail);
      var rest := Cut(tail[n..]);
      if rest > 0 {
        CutOutsideComment(tail[n..]);
        CutAfterLine(tail, n, rest);
      } else {
        CutInLine(tail, n);
      }
    }
  }

  // ------------------------------------------------------------------ comments that resume

  /** From `a` on, the first character that is not blank is `s[j]`, and opens no comment. */
  predicate CodeFrom(s: string, a: int, j: int) {
    0 <= a <= j < |s| && !IsBlank(s[j]) && !CommentAt(s, j) && forall k :: a <= k < j ==> IsBlank(s[k])
  }

  /** A carriage return, and after it code. */
  predicate ReturnThenCode(s: string, i: int, j: int) {
    0 <= i < |s| && s[i] == '\r' && CodeFrom(s, i + 1, j)
  }

  ghost predicate Resumes(s: string) {
    exists i, j :: ReturnThenCode(s, i, j)
  }

  ghost predicate StartsCode(s: string) {
    exists j :: CodeFrom(s, 0, j)
  }

  lemma CodeFromShift(s: string, n: nat, a: int, j: int)
    requires n <= |s| && 0 <= a
    ensures CodeFrom(s, n + a, n + j) <==> CodeFrom(s[n..], a, j)
  {
    var t := s[n..];
    assert forall k :: 0 <= k < |t| ==> t[k] == s[n + k];
    if CodeFrom(t, a, j) {
      forall k | n + a <= k < n + j ensures IsBlank(s[k]) { assert s[k] == t[k - n]; }
    }
  }

  lemma ResumesShift(s: string)
    requires s != []
    ensures Resumes(s) <==> Resumes(s[1..]) || (s[0] == '\r' && StartsCode(s[1..]))
  {
    if Resumes(s) {
      var i, j :| ReturnThenCode(s, i, j);
      CodeFromShift(s, 1, i, j - 1);
      if i > 0 { assert ReturnThenCode(s[1..], i - 1, j - 1); }
    }
    if Resumes(s[1..]) {
      var i, j :| ReturnThenCode(s[1..], i, j);
      CodeFromShift(s, 1, i + 1, j);
      assert ReturnThenCode(s, i + 1, j + 1);
    }
    if s[0] == '\r' && StartsCode(s[1..]) {
      var j :| CodeFrom(s[1..], 0, j);
      CodeFromShift(s, 1, 0, j);
      assert ReturnThenCode(s, 0, j + 1);
    }
  }

  lemma StartsCodeShift(s: string)
    requires s != []
    ensures StartsCode(s) <==> if IsBlank(s[0]) then StartsCode(s[1..]) else !CommentAt(s, 0)
  {
    if IsBlank(s[0]) {
      if StartsCode(s) {
        var j :| CodeFrom(s, 0, j);
        CodeFromShift(s, 1, 0, j - 1);
      }
      if StartsCode(s[1..]) {
        var j :| CodeFrom(s[1..], 0, j);
        CodeFromShift(s, 1, 0, j);
        assert CodeFrom(s, 0, j + 1);
      }
    } else if !CommentAt(s, 0) {
      assert CodeFrom(s, 0, 0);
    }
  }

  /** Within one line, a comment hides code exactly when a carriage return ends it early. */
  lemma {:induction false} CommentHides(s: string, inComment: bool)
    requires forall i :: 0 <= i < |s| - 1 ==> s[i] != '\n'
    ensures Code(s, inComment) != [] <==> Resumes(s) || (!inComment && StartsCode(s))
    decreases |s|
  {
    if s != [] {
      ResumesShift(s);
      StartsCodeShift(s);
      if !inComment && CommentAt(s, 0) {
        ResumesShift(s[1..]);
        assert s[1..][1..] == s[2..];
        CommentHides(s[2..], true);
      } else {
        CommentHides(s[1..], inComment && s[0] != '\n' && s[0] != '\r');
        if inComment && s[0] == '\n' { assert s[1..] == []; }
      }
    }
  }

  /** From the last line that has something before its comment on, some comment holds a carriage
      return with more code after it: the line splitter does not see that the comment ended. */
  ghost predicate LostAfterReturn(tail: string)
    decreases |tail|
  {
    tail != [] &&
    var n := LineLength(tail);
    LostAfterReturn(tail[n..]) || (Cut(tail[n..]) == 0 && Resumes(tail[CommentStart(tail[..n])..n]))
  }

  /** From that line on, white space that the grammar does not skip is cut off before a comment. */
  ghost predicate LostSpace(tail: string)
    decreases |tail|
  {
    tail != [] &&
    var n := LineLength(tail);
    LostSpace(tail[n..]) || (Cut(tail[n..]) == 0 && HasForeign(tail[..n]))
  }

  lemma CommentLoses(comment: string)
    requires comment == [] || CommentAt(comment, 0)
    requires forall i :: 0 <= i < |comment| - 1 ==> comment[i] != '\n'
    ensures Code(comment, false) != [] <==> Resumes(comment)
  {
    CommentHides(comment, false);
    if comment != [] { StartsCodeShift(comment); }
  }

  lemma LineLoses(line: string)
    requires forall i :: 0 <= i < |line| - 1 ==> line[i] != '\n'
    ensures CodeLength(line) <= |line|
    ensures Code(line[CodeLength(line)..], false) != [] <==> Resumes(line[CommentStart(line)..]) || HasForeign(line)
  {
    var c := CommentStart(line);
    var comment := line[c..];
    assert forall i :: 0 <= i < |comment| ==> comment[i] == line[c + i];
    assert comment != [] ==> CommentAt(comment, 0);
    LineRest(line);
    CommentLoses(comment);
  }

  lemma LostUnfold(tail: string, n: nat)
    requires tail != [] && n == LineLength(tail)
    ensures LostAfterReturn(tail)
            <==> LostAfterReturn(tail[n..]) || (Cut(tail[n..]) == 0 && Resumes(tail[CommentStart(tail[..n])..n]))
    ensures LostSpace(tail) <==> LostSpace(tail[n..]) || (Cut(tail[n..]) == 0 && HasForeign(tail[..n]))
  {
  }

  lemma DroppedLater(tail: string, n: nat)
    requires tail != [] && n == LineLength(tail) && Cut(tail[n..]) > 0
    ensures tail[Cut(tail)..] == tail[n..][Cut(tail[n..])..]
  {
    Slices(tail, n, Cut(tail[n..]));
  }

  lemma DroppedLine(line: string, k: nat, more: string)
    requires k <= |line| && line != [] && (more != [] ==> line[|line| - 1] == '\n')
    ensures Code(line[k..] + more, false) == Code(line[k..], false) + Code(more, false)
  {
    if more == [] {
      assert line[k..] + more == line[k..];
    } else if k < |line| {
      LineFeedEndsComment(line[k..], false);
      CodeConcat(line[k..], more, false);
    } else {
      assert line[k..] + more == more;
    }
  }

  lemma DroppedHere(line: string, more: string)
    requires line != [] && forall i :: 0 <= i < |line| - 1 ==> line[i] != '\n'
    requires more != [] ==> line[|line| - 1] == '\n'
    ensures CodeLength(line) <= |line|
    ensures Code(line[CodeLength(line)..] + more, false) != []
            <==> Resumes(line[CommentStart(line)..]) || HasForeign(line) || Code(more, false) != []
  {
    LineLoses(line);
    DroppedLine(line, CodeLength(line), more);
  }

  lemma InTwo(s: string, n: nat, k: nat, c: nat)
    requires k <= n <= |s| && c <= n
    ensures s[k..] == s[..n][k..] + s[n..] && s[..n][c..] == s[c..n]
  {
  }

  lemma DroppedNow(tail: string, n: nat)
    requires tail != [] && n == LineLength(tail) && Cut(tail[n..]) == 0
    ensures Code(tail[Cut(tail)..], false) != [] <==>
              || Resumes(tail[CommentStart(tail[..n])..n]) || HasForeign(tail[..n])
              || Code(tail[n..][Cut(tail[n..])..], false) != []
  {
    var line, more := tail[..n], tail[n..];
    DroppedHere(line, more);
    InTwo(tail, n, CodeLength(line), CommentStart(line));
    assert Cut(tail) == CodeLength(line) && more[0..] == more;
  }

  lemma DroppedLines(tail: string, n: nat)
    requires tail != [] && n == LineLength(tail)
    requires Code(tail[n..][Cut(tail[n..])..], false) != [] <==> LostAfterReturn(tail[n..]) || LostSpace(tail[n..])
    ensures Code(tail[Cut(tail)..], false) != [] <==> LostAfterReturn(tail) || LostSpace(tail)
  {
    var rest := Cut(tail[n..]);
    LostUnfold(tail, n);
    if rest > 0 {
      DroppedLater(tail, n);
    } else {
      DroppedNow(tail, n);
    }
  }

  lemma {:induction false} DroppedCode(tail: string)
    ensures Code(tail[Cut(tail)..], false) != [] <==> LostAfterReturn(tail) || LostSpace(tail)
    decreases |tail|
  {
    if tail != [] {
      var n := LineLength(tail);
      DroppedCode(tail[n..]);
      DroppedLines(tail, n);
    }
  }

  lemma NothingMore(a: string, b: string)
    ensures a == a + b <==> b == []
  {
    if a == a + b { assert |a| == |a + b|; }
  }

  /** The cut keeps the code of the text after the last leaf, all of it, if and only if no comment
      that it drops is ended early by a carriage return with code behind it and it drops no white
      space foreign to the grammar. */
  lemma CutKeepsCode(tail: string)
    ensures Code(tail[..Cut(tail)], false) == Code(tail, false) <==> !LostAfterReturn(tail) && !LostSpace(tail)
  {
    var kept, dropped := tail[..Cut(tail)], tail[Cut(tail)..];
    CutOutsideComment(tail);
    CodeConcat(kept, dropped, false);
    assert kept + dropped == tail;
    NothingMore(Code(kept, false), Code(dropped, false));
    DroppedCode(tail);
  }

  /** As after the last leaf of a text that parses: what the grammar reads there is no white space. */
  predicate ReadsNoSpace(tail: string) {
    forall i :: 0 <= i < |Code(tail, false)| ==> !Text.IsWhitespace(Code(tail, false)[i])
  }

  lemma ForeignIsRead(line: string, i: nat)
    requires i < CommentStart(line) && IsForeign(line[i])
    ensures !ReadsNoSpace(line)
  {
    var before := line[..i];
    assert forall j :: 0 <= j < i ==> CommentAt(before, j) ==> CommentAt(line, j);
    NoCommentNoChange(before);
    CodeConcat(before, line[i..], false);
    assert before + line[i..] == line;
    CodeStep(line[i..], false);
    assert Code(line, false)[|Code(before, false)|] == line[i];
  }

  lemma LineThenRest(tail: string, n: nat)
    requires tail != [] && n == LineLength(tail)
    ensures Code(tail, false) == Code(tail[..n], false) + Code(tail[n..], false)
  {
    DroppedLine(tail[..n], 0, tail[n..]);
    assert tail[..n][0..] == tail[..n] && tail[..n] + tail[n..] == tail;
  }

  /** Such a tail loses no white space. */
  lemma {:induction false} NoSpaceLost(tail: string)
    requires ReadsNoSpace(tail)
    ensures !LostSpace(tail)
    decreases |tail|
  {
    if tail != [] {
      var n := LineLength(tail);
      var line, rest := Code(tail[..n], false), Code(tail[n..], false);
      LineThenRest(tail, n);
      assert forall i :: 0 <= i < |line| ==> line[i] == Code(tail, false)[i];
      assert forall i :: 0 <= i < |rest| ==> rest[i] == Code(tail, false)[|line| + i];
      NoSpaceLost(tail[n..]);
      if i :| CodeLength(tail[..n]) <= i < CommentStart(tail[..n]) && IsForeign(tail[..n][i]) {
        ForeignIsRead(tail[..n], i);
      }
    }
  }

  /** Every carriage return is followed by a line feed. */
  predicate NoLoneReturn(s: string) {
    forall i :: 0 <= i < |s| && s[i] == '\r' ==> i + 1 < |s| && s[i + 1] == '\n'
  }

  lemma NoLoneReturnNoResume(s: string, c: nat, n: nat)
    requires c <= n <= |s| && NoLoneReturn(s) && forall i :: c <= i < n - 1 ==> s[i] != '\n'
    ensures !Resumes(s[c..n])
  {
    var t := s[c..n];
    forall i, j ensures !ReturnThenCode(t, i, j) {
      if 0 <= i < |t| && t[i] == '\r' {
        assert s[c + i] == '\r' && s[c + i + 1] == '\n';
        assert c + i + 1 >= n - 1;
      }
    }
  }

  /** Line feeds, alone or after carriage returns, never lose anything. */
  lemma {:induction false} LineFeedsLoseNothing(tail: string)
    requires NoLoneReturn(tail)
    ensures !LostAfterReturn(tail)
    decreases |tail|
  {
    if tail != [] {
      var n := LineLength(tail);
      assert NoLoneReturn(tail[n..]) by { assert forall i :: 0 <= i < |tail[n..]| ==> tail[n..][i] == tail[n + i]; }
      LineFeedsLoseNothing(tail[n..]);
      NoLoneReturnNoResume(tail, CommentStart(tail[..n]), n);
    }
  }

  lemma LoneReturnCut(tail: string)
    requires tail == " // c\r)"
    ensures Cut(tail) == 0
  {
    assert LineLength(tail) == |tail|;
    assert tail[|tail|..] == "" && Cut("") == 0;
    var line := tail[..|tail|];
    assert CommentAt(line, 1);
    assert CommentStart(line) <= 1;
    LineCutClean(line);
    assert Text.IsWhitespace(line[0]);
  }

  /** A lone carriage return that ends a comment does: the closing parenthesis here is lost. */
  lemma LoneReturnLosesCode()
    ensures var tail := " // c\r)"; Cut(tail) == 0 && Code(tail, false) == ")" && LostAfterReturn(tail)
  {
    var tail := " // c\r)";
    LoneReturnCut(tail);
    assert tail[1..] == "// c\r)" && tail[1..][2..] == " c\r)" && tail[1..][2..][1..] == "c\r)";
    assert tail[1..][2..][1..][1..] == "\r)" && tail[1..][2..][1..][1..][1..] == ")" && ")"[1..] == "";
    assert Code(")", false) == ")";
    assert Code("\r)", true) == ")";
    assert Code("c\r)", true) == ")";
    assert Code(" c\r)", true) == ")";
    assert Code("// c\r)", false) == ")";
    NoSpaceLost(tail);
    CutKeepsCode(tail);
    assert tail[..0] == "" && Code("", false) == "";
  }
}
