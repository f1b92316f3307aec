/** The dot that opens a statement: what crates/kql-parser/src/policy.rs takes for one, and what the
    grammar reads before it. */
module KqlOpeningDot {
  import opened Wrappers
  import Text
  import opened KqlText
  import opened KqlPosition

  predicate EndsWith(s: string, c: char) {
    s != [] && s[|s| - 1] == c
  }

  /** The character at `k` is a dot that opens a statement: before it, blanks aside, stands a `;`. */
  predicate OpensStatement(text: string, k: int) {
    0 <= k < |text| && text[k] == '.' && EndsWith(Text.TrimEnd(text[..k], Text.IsWhitespace), ';')
  }

  method DotStatementAt(text: string, at: Position) returns (found: bool)
    ensures found <==> exists k :: StandsAt(text, k, at) && OpensStatement(text, k)
  {
    var offset := ByteOffset(text, at);
    if offset.None? { return false; }
    var o := Text.CharsIn(text, offset.value);
    ghost var k :| StandsAt(text, k, at) && offset.value == Text.ByteLength(text[..k]);
    Text.CharsInPrefix(text, k);
    found := o < |text| && text[o] == '.' && EndsWith(Text.TrimEnd(text[..o], Text.IsWhitespace), ';');
    forall j | StandsAt(text, j, at) ensures j == k {
      if j < k { PositionsGrow(text, j, k); }
      if k < j { PositionsGrow(text, k, j); }
    }
  }

  // ------------------------------------------------------------------ what the grammar reads before it

  /** How far a text's code goes: just after the last character that the grammar reads. */
  function CodeEnd(s: string, inComment: bool): (n: nat)
    ensures n <= |s|
    decreases |s|
  {
    if s == [] then 0
    else
      var n := Skip(s, inComment);
      var rest := CodeEnd(s[n..], After(s, inComment));
      if rest > 0 then n + rest else if Read(s, inComment) != [] then n else 0
  }

  /** The blanks and comments after the code. */
  function Gap(s: string): string {
    s[CodeEnd(s, false)..]
  }

  /** The last character of the code stands just before `n`; without code `n` is 0. */
  predicate EndsAt(s: string, n: nat, code: string) {
    && n <= |s| && (n == 0 <==> code == [])
    && (n > 0 && code != [] ==> code[|code| - 1] == s[n - 1] && !IsBlank(s[n - 1]))
  }

  lemma EndsLater(s: string, n: nat, rest: nat, read: string, code: string)
    requires n <= |s| && EndsAt(s[n..], rest, code)
    requires read == [] || (n == 1 && read == [s[0]] && !IsBlank(s[0]))
    ensures EndsAt(s, if rest > 0 then n + rest else if read != [] then n else 0, read + code)
  {
    if rest > 0 { assert s[n..][rest - 1] == s[n + rest - 1]; }
  }

  lemma {:induction false} CodeEndIsLast(s: string, inComment: bool)
    ensures EndsAt(s, CodeEnd(s, inComment), Code(s, inComment))
    decreases |s|
  {
    if s != [] {
      var n, c := Skip(s, inComment), After(s, inComment);
      CodeStep(s, inComment);
      CodeEndIsLast(s[n..], c);
      EndsLater(s, n, CodeEnd(s[n..], c), Read(s, inComment), Code(s[n..], c));
    }
  }

  predicate IsSpace(s: string) {
    forall i :: 0 <= i < |s| ==> Text.IsWhitespace(s[i])
  }

  /** Where the gap is white space alone, no comment runs on. */
  lemma {:induction false} SpaceEndsNoComment(s: string, inComment: bool)
    requires IsSpace(s[CodeEnd(s, inComment)..]) && (inComment ==> CodeEnd(s, inComment) > 0)
    ensures !EndsInComment(s, inComment)
    decreases |s|
  {
    if s != [] {
      var n, c := Skip(s, inComment), After(s, inComment);
      var rest := CodeEnd(s[n..], c);
      CodeStep(s, inComment);
      if rest > 0 {
        assert s[n..][rest..] == s[n + rest..];
      } else if CodeEnd(s, inComment) == 0 {
        assert s[0..] == s;
        assert Text.IsWhitespace(s[0]);
      }
      SpaceEndsNoComment(s[n..], c);
    }
  }

  /** A dot after `s` opens a statement: the code before it ends with a `;`, and no comment hides the
      dot. */
  predicate CodeOpens(s: string) {
    EndsWith(Code(s, false), ';') && !EndsInComment(s, false)
  }

  /** Before a dot after `s`, white space aside, stands a `;`. */
  predicate TextOpens(s: string) {
    EndsWith(Text.TrimEnd(s, Text.IsWhitespace), ';')
  }

  lemma LastSeen(s: string, v: nat)
    requires v < |s| && !Text.IsWhitespace(s[v]) && forall i :: v < i < |s| ==> Text.IsWhitespace(s[i])
    ensures Text.TrimEnd(s, Text.IsWhitespace) == s[..v + 1]
  {
    assert Text.TrimmedLength(s, Text.IsWhitespace) == v + 1;
  }

  lemma SeenBehind(s: string, n: nat)
    requires n <= |s| && !IsSpace(s[n..])
    ensures TextOpens(s) <==> TextOpens(s[n..])
  {
    var t := s[n..];
    var v := Text.TrimmedLength(t, Text.IsWhitespace);
    assert forall i :: 0 <= i < |t| ==> t[i] == s[n + i];
    assert v > 0;
    LastSeen(t, v - 1);
    assert forall i :: n + v <= i < |s| ==> s[i] == t[i - n];
    LastSeen(s, n + v - 1);
  }

  lemma SeenBefore(s: string, n: nat)
    requires n <= |s| && IsSpace(s[n..])
    ensures TextOpens(s) <==> TextOpens(s[..n])
  {
    var v := Text.TrimmedLength(s[..n], Text.IsWhitespace);
    assert forall i :: n <= i < |s| ==> s[i] == s[n..][i - n];
    assert forall i :: 0 <= i < n ==> s[i] == s[..n][i];
    if v > 0 {
      LastSeen(s[..n], v - 1);
      LastSeen(s, v - 1);
    } else {
      assert Text.TrimmedLength(s, Text.IsWhitespace) == 0;
    }
  }

  /** The code ends with a `;`, and a comment or byte order mark after it does not. */
  predicate IsMissed(s: string) {
    CodeOpens(s) && !IsSpace(Gap(s)) && !TextOpens(Gap(s))
  }

  /** A comment ends with a `;`, and the code before it does not, or the comment runs on. */
  predicate EndsInCommented(s: string) {
    TextOpens(Gap(s)) && !CodeOpens(s)
  }

  /** The code ends with white space foreign to the grammar, and before that with a `;`. */
  predicate EndsInForeign(s: string) {
    var n := CodeEnd(s, false);
    n > 0 && IsForeign(s[n - 1]) && IsSpace(Gap(s)) && TextOpens(s[..n])
  }

  lemma SpaceGap(s: string)
    requires IsSpace(Gap(s))
    ensures CodeOpens(s) <==> CodeEnd(s, false) > 0 && s[CodeEnd(s, false) - 1] == ';'
    ensures TextOpens(s) <==> TextOpens(s[..CodeEnd(s, false)])
  {
    CodeEndIsLast(s, false);
    SpaceEndsNoComment(s, false);
    SeenBefore(s, CodeEnd(s, false));
  }

  lemma SpaceGapAgrees(s: string)
    requires IsSpace(Gap(s))
    ensures TextOpens(s) <==> CodeOpens(s) || EndsInForeign(s)
    ensures !(CodeOpens(s) && EndsInForeign(s))
  {
    var n := CodeEnd(s, false);
    SpaceGap(s);
    CodeEndIsLast(s, false);
    if n > 0 && !Text.IsWhitespace(s[n - 1]) { LastSeen(s[..n], n - 1); }
  }

  /** What the code sees before a dot against what the grammar reads there, on every text. */
  lemma SeenAgainstRead(s: string)
    ensures CodeOpens(s) && !TextOpens(s) <==> IsMissed(s)
    ensures TextOpens(s) && !CodeOpens(s) <==> EndsInCommented(s) || EndsInForeign(s)
  {
    if IsSpace(Gap(s)) {
      SpaceGapAgrees(s);
      assert Gap(s)[0..] == Gap(s) && Gap(s)[..0] == [];
      SeenBefore(Gap(s), 0);
    } else {
      SeenBehind(s, CodeEnd(s, false));
    }
  }

  /** The dot at `k` opens a statement as the grammar reads the text from the end `leaf` of a token
      before it on. */
  predicate OpensInCode(text: string, leaf: nat, k: int) {
    leaf <= k < |text| && text[k] == '.' && CodeOpens(text[leaf..k])
  }

  /** The two agree on a dot if and only if neither the comments and byte order marks before it hide a
      `;` that ends the code, nor a comment or foreign white space shows one that does not. */
  lemma OpeningDotExactly(text: string, leaf: nat, k: nat)
    requires leaf <= k < |text| && text[k] == '.' && !TextOpens(text[..leaf])
    ensures OpensInCode(text, leaf, k) && !OpensStatement(text, k) <==> IsMissed(text[leaf..k])
    ensures OpensStatement(text, k) && !OpensInCode(text, leaf, k) <==>
              EndsInCommented(text[leaf..k]) || EndsInForeign(text[leaf..k])
  {
    var before, s := text[..k], text[leaf..k];
    assert before[leaf..] == s && before[..leaf] == text[..leaf];
    SeenAgainstRead(s);
    if IsSpace(s) {
      SeenBefore(before, leaf);
      assert s[0..] == s && s[..0] == [];
      SeenBefore(s, 0);
    } else {
      SeenBehind(before, leaf);
    }
  }

  /** Nothing but white space between the code and the dot, and no foreign white space: they agree. */
  lemma PlainDotIsSeen(text: string, leaf: nat, k: nat)
    requires leaf <= k < |text| && text[k] == '.' && !TextOpens(text[..leaf])
    requires IsSpace(Gap(text[leaf..k])) && ReadsNoSpace(text[leaf..k])
    ensures OpensStatement(text, k) <==> OpensInCode(text, leaf, k)
  {
    var s := text[leaf..k];
    OpeningDotExactly(text, leaf, k);
    CodeEndIsLast(s, false);
    SpaceGapAgrees(s);
  }

  // ------------------------------------------------------------------ texts that differ

  lemma {:induction false} InsideComment(note: string)
    requires forall i :: 0 <= i < |note| - 1 ==> note[i] != '\n' && note[i] != '\r'
    ensures Code(note, true) == []
    decreases |note|
  {
    if |note| > 1 { InsideComment(note[1..]); }
  }

  lemma LineComment(before: string, note: string)
    requires !EndsInComment(before, false) && !EndsWith(before, '/') && CommentAt(note, 0)
    requires note[|note| - 1] == '\n' && forall i :: 0 <= i < |note| - 1 ==> note[i] != '\n' && note[i] != '\r'
    ensures Code(before + note, false) == Code(before, false) && !EndsInComment(before + note, false)
  {
    CodeConcat(before, note, false);
    InsideComment(note[2..]);
    LineFeedEndsComment(note, false);
  }

  /** Before the dot of `T; // c` and `.show` on the next line. */
  lemma CommentHidesSemicolon()
    ensures !OpensStatement("T; // c\n.show", 8) && OpensInCode("T; // c\n.show", 1, 8)
  {
    var text, before, note := "T; // c\n.show", "; ", "// c\n";
    assert text[1..8] == before + note;
    assert before[1..] == " " && " "[1..] == "" && Code(" ", false) == "" && Code(before, false) == ";";
    NoCommentNoChange(before);
    LineComment(before, note);
    LastSeen(text[..8], 6);
  }

  /** Before the dot of `T | count // a;` and `.show` on the next line, where no statement has ended. */
  lemma CommentShowsSemicolon()
    ensures OpensStatement("T | count // a;\n.show", 16) && !OpensInCode("T | count // a;\n.show", 9, 16)
  {
    var text, before, note := "T | count // a;\n.show", " ", "// a;\n";
    assert text[9..16] == before + note;
    assert before[1..] == "" && Code(before, false) == "";
    NoCommentNoChange(before);
    LineComment(before, note);
    LastSeen(text[..16], 14);
  }

  /** A byte order mark between the `;` and the dot hides the one from the other. */
  lemma MarkHidesSemicolon()
    ensures !OpensStatement("T;\U{FEFF}.show", 3) && OpensInCode("T;\U{FEFF}.show", 1, 3)
  {
    var text, s := "T;\U{FEFF}.show", ";\U{FEFF}";
    assert text[1..3] == s;
    assert s[1..] == "\U{FEFF}" && s[1..][1..] == "" && Code(s[1..], false) == "" && Code(s, false) == ";";
    NoCommentNoChange(s);
    LastSeen(text[..3], 2);
  }
}
