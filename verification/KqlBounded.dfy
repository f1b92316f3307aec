/** The bounded query of crates/kql-parser/src/policy.rs. */
module KqlBounded {
  import opened Wrappers
  import Text
  import opened KqlText

  // ------------------------------------------------------------------ the row bound

  const TAKE := "\n| take "

  predicate IsTrailer(c: char) {
    c == ';' || Text.IsWhitespace(c)
  }

  /** Where the body of a bounded query ends: after the last statement's code, or, when the text
      does not parse, before its trailing `;` and whitespace. */
  function BodyEnd(text: string, last: Option<Pair>): nat
    requires last.Some? ==> Nested(last.value) && last.value.end <= |text|
  {
    match last
    case Some(stmt) =>
      LastLeafOfStatement(stmt);
      var lastLeaf := LastLeafEnd(stmt.inner, stmt.start);
      lastLeaf + Cut(text[lastLeaf..stmt.end])
    case None => Text.TrimmedLength(text, IsTrailer)
  }

  method Bounded(text: string, last: Option<Pair>, maxRows: nat) returns (query: string)
    requires last.Some? ==> Nested(last.value) && last.value.end <= |text|
    ensures BodyEnd(text, last) <= |text|
    ensures query == text[..BodyEnd(text, last)] + TAKE + Text.Decimal(maxRows + 1)
  {
    var body;
    if last.Some? {
      var end := StatementEnd(text, last.value);
      body := text[..end];
    } else {
      body := Text.TrimEnd(text, IsTrailer);
    }
    query := body + "\n| take " + Text.Decimal(maxRows + 1);
  }

  /** Of a text that does not parse, semicolons and white space at its end are left off. */
  lemma TrailerIsCut(body: string, trailer: string)
    requires forall c :: c in trailer ==> c == ';' || c in Text.WHITE_SPACE
    requires body == "" || (body[|body| - 1] != ';' && body[|body| - 1] !in Text.WHITE_SPACE)
    ensures BodyEnd(body + trailer, None) == |body|
  {
    var text := body + trailer;
    forall i | |body| <= i < |text| ensures IsTrailer(text[i]) {
      assert text[i] == trailer[i - |body|] && text[i] in trailer;
      Text.WhitespaceIs(text[i]);
    }
    if body != "" {
      Text.WhitespaceIs(body[|body| - 1]);
      assert text[|body| - 1] == body[|body| - 1];
    }
  }

  predicate IsPlain(s: string) {
    forall i :: 0 <= i < |s| ==> !IsBlank(s[i]) && s[i] != '/'
  }

  lemma {:induction false} PlainCode(s: string)
    requires IsPlain(s)
    ensures Code(s, false) == s && !EndsInComment(s, false)
    decreases |s|
  {
    if s != [] { PlainCode(s[1..]); }
  }

  lemma PlainThen(a: string, b: string)
    requires IsPlain(a)
    ensures Code(a + b, false) == a + Code(b, false)
  {
    PlainCode(a);
    CodeConcat(a, b, false);
  }

  lemma BlankThen(a: string, b: string)
    requires forall i :: 0 <= i < |a| ==> IsBlank(a[i])
    ensures Code(a + b, false) == Code(b, false)
  {
    BlankCode(a);
    CodeConcat(a, b, false);
  }

  lemma WordCode(digits: string)
    requires IsPlain(digits)
    ensures Code("take" + (" " + digits), false) == "take" + digits
  {
    PlainThen("take", " " + digits);
    BlankThen(" ", digits);
    PlainCode(digits);
  }

  lemma BarCode(word: string)
    ensures Code("\n" + ("|" + (" " + word)), false) == "|" + Code(word, false)
  {
    BlankThen("\n", "|" + (" " + word));
    PlainThen("|", " " + word);
    BlankThen(" ", word);
  }

  lemma Grouped(digits: string)
    ensures TAKE + digits == "\n" + ("|" + (" " + ("take" + (" " + digits))))
    ensures "|" + ("take" + digits) == "|take" + digits
  {
  }

  lemma TakeCode(n: nat)
    ensures Code(TAKE + Text.Decimal(n), false) == "|take" + Text.Decimal(n)
  {
    var digits := Text.Decimal(n);
    WordCode(digits);
    BarCode("take" + (" " + digits));
    Grouped(digits);
  }

  // ------------------------------------------------------------------ reading a query

  /** A text as the grammar reads it from its last leaf on: what precedes that leaf's end, literals
      and comments in it included, as it stands, then the code of the rest. */
  datatype Reading = Reading(verbatim: string, code: string)

  function ReadFrom(text: string, leaf: nat): Reading {
    if leaf <= |text| then Reading(text[..leaf], Code(text[leaf..], false)) else Reading(text, "")
  }

  function WithoutSemicolon(code: string): string {
    if code != [] && code[|code| - 1] == ';' then code[..|code| - 1] else code
  }

  /** The query a text asks: its reading without the `;` that may end it. */
  function QueryOf(text: string, leaf: nat): Reading {
    Reading(ReadFrom(text, leaf).verbatim, WithoutSemicolon(ReadFrom(text, leaf).code))
  }

  /** What follows the last leaf, inside the statement. */
  function TailOf(text: string, stmt: Pair): string
    requires Nested(stmt) && stmt.end <= |text|
  {
    LastLeafOfStatement(stmt);
    text[LastLeafEnd(stmt.inner, stmt.start)..stmt.end]
  }

  /** As in a text that parses: nothing but blanks, comments and a `;` follows the statement, none of
      that is its code, and what it reads after its last leaf is no white space. */
  predicate EndsText(stmt: Pair, text: string)
    requires Nested(stmt) && stmt.end <= |text|
  {
    LastLeafOfStatement(stmt);
    var code := Code(TailOf(text, stmt), false);
    && ReadsNoSpace(TailOf(text, stmt))
    && WithoutSemicolon(code) == code
    && Code(text[LastLeafEnd(stmt.inner, stmt.start)..], false) in {code, code + ";"}
  }

  lemma QueryIsStatement(text: string, stmt: Pair)
    requires Nested(stmt) && stmt.end <= |text| && EndsText(stmt, text)
    ensures var leaf := LastLeafEnd(stmt.inner, stmt.start);
      leaf <= stmt.end && QueryOf(text, leaf) == Reading(text[..leaf], Code(TailOf(text, stmt), false))
  {
    LastLeafOfStatement(stmt);
    var code := Code(TailOf(text, stmt), false);
    assert (code + ";")[..|code|] == code;
  }

  /** The last `| take N` of some code, and the code before it. */
  function Bound(code: string): Option<(string, nat)> {
    var n := Text.TrimmedLength(code, Text.IsDigit);
    var before := code[..n];
    if n == |code| || |before| < |"|take"| || before[n - |"|take"|..] != "|take" then None
    else Some((before[..n - |"|take"|], Text.Value(code[n..])))
  }

  lemma DigitsTrimmed(before: string, digits: string)
    requires before != [] && !Text.IsDigit(before[|before| - 1])
    requires forall i :: 0 <= i < |digits| ==> Text.IsDigit(digits[i])
    ensures Text.TrimmedLength(before + digits, Text.IsDigit) == |before|
  {
    var all := before + digits;
    var n := Text.TrimmedLength(all, Text.IsDigit);
    assert all[|before| - 1] == before[|before| - 1];
    assert forall i :: |before| <= i < |all| ==> all[i] == digits[i - |before|];
  }

  lemma BoundIsRead(code: string, n: nat)
    ensures Bound(code + "|take" + Text.Decimal(n)) == Some((code, n))
  {
    var digits := Text.Decimal(n);
    var before := code + "|take";
    var all := before + digits;
    DigitsTrimmed(before, digits);
    assert all[..|before|] == before && all[|before|..] == digits;
    assert before[|before| - 5..] == "|take" && before[..|before| - 5] == code;
    Text.DecimalReadsBack(n);
  }

  // ------------------------------------------------------------------ the bounded query's reading

  lemma Associative(a: string, b: string, c: string)
    ensures a + (b + c) == a + b + c
  {
  }

  lemma KeptThenTake(kept: string, n: nat)
    requires !EndsInComment(kept, false)
    ensures Code(kept + (TAKE + Text.Decimal(n)), false) == Code(kept, false) + "|take" + Text.Decimal(n)
  {
    var take, digits := TAKE + Text.Decimal(n), Text.Decimal(n);
    assert take[0] == '\n';
    CodeConcat(kept, take, false);
    TakeCode(n);
    Associative(Code(kept, false), "|take", digits);
  }

  lemma Sliced(text: string, leaf: nat, end: nat, cut: nat, take: string, digits: string)
    requires leaf <= end <= |text| && cut <= end - leaf
    ensures var query := text[..leaf + cut] + take + digits;
      query[..leaf] == text[..leaf] && query[leaf..] == text[leaf..end][..cut] + (take + digits)
  {
  }

  /** The bounded query as the grammar reads it: the text before the last leaf's end as it stood, the
      code that the cut keeps, and one `| take N`. */
  lemma BoundedReading(text: string, stmt: Pair, maxRows: nat)
    requires Nested(stmt) && stmt.end <= |text|
    ensures var leaf, tail := LastLeafEnd(stmt.inner, stmt.start), TailOf(text, stmt);
      && BodyEnd(text, Some(stmt)) <= |text| && leaf <= |text|
      && ReadFrom(text[..BodyEnd(text, Some(stmt))] + TAKE + Text.Decimal(maxRows + 1), leaf)
         == Reading(text[..leaf], Code(tail[..Cut(tail)], false) + "|take" + Text.Decimal(maxRows + 1))
  {
    LastLeafOfStatement(stmt);
    var leaf, tail := LastLeafEnd(stmt.inner, stmt.start), TailOf(text, stmt);
    CutOutsideComment(tail);
    KeptThenTake(tail[..Cut(tail)], maxRows + 1);
    Sliced(text, leaf, stmt.end, Cut(tail), TAKE, Text.Decimal(maxRows + 1));
  }

  lemma SameSuffix(a: string, b: string, c: string, d: string)
    ensures a + c + d == b + c + d <==> a == b
  {
    if a + c + d == b + c + d {
      assert |a + c + d| == |b + c + d|;
      assert a == (a + c + d)[..|a|] == (b + c + d)[..|b|] == b;
    }
  }

  /** The whole bounded query reads as the query the text asks followed by one `| take N`, one row
      more than asked, if and only if the cut loses no code behind a carriage return. */
  lemma BoundedKeepsCode(text: string, stmt: Pair, maxRows: nat)
    requires Nested(stmt) && stmt.end <= |text| && EndsText(stmt, text)
    ensures var leaf := LastLeafEnd(stmt.inner, stmt.start);
      var asked := QueryOf(text, leaf);
      && BodyEnd(text, Some(stmt)) <= |text|
      && (ReadFrom(text[..BodyEnd(text, Some(stmt))] + TAKE + Text.Decimal(maxRows + 1), leaf)
            == Reading(asked.verbatim, asked.code + "|take" + Text.Decimal(maxRows + 1))
          <==> !LostAfterReturn(TailOf(text, stmt)))
  {
    var tail := TailOf(text, stmt);
    BoundedReading(text, stmt, maxRows);
    QueryIsStatement(text, stmt);
    NoSpaceLost(tail);
    CutKeepsCode(tail);
    SameSuffix(Code(tail[..Cut(tail)], false), Code(tail, false), "|take", Text.Decimal(maxRows + 1));
  }

  lemma LostTail(text: string, stmt: Pair, tail: string)
    requires Nested(stmt) && stmt.end == |text| && TailOf(text, stmt) == tail && Cut(tail) == 0
    requires Code(tail, false) == ")"
    ensures var leaf := LastLeafEnd(stmt.inner, stmt.start);
      leaf <= |text| && EndsText(stmt, text) && BodyEnd(text, Some(stmt)) == leaf
          && QueryOf(text, leaf) == Reading(text[..leaf], ")")
  {
    LastLeafOfStatement(stmt);
    var leaf := LastLeafEnd(stmt.inner, stmt.start);
    assert text[leaf..] == tail;
    QueryIsStatement(text, stmt);
  }

  const LOST_TEXT := "(T // c\r)"
  const LOST_STATEMENT := Pair(0, 9, [Pair(0, 9, [Pair(1, 2, [])])])

  lemma LostStatement()
    ensures Nested(LOST_STATEMENT) && LastLeafEnd(LOST_STATEMENT.inner, 0) == 2
  {
    var leaf := Pair(1, 2, []);
    var inner := Pair(0, 9, [leaf]);
    assert Nested(leaf) && Nested(inner);
    assert [leaf][1..] == [] && [inner][1..] == [];
    assert LastLeafEnd([leaf], 0) == 2;
  }

  lemma LostTailIs()
    ensures |LOST_TEXT| == 9 && LOST_TEXT[2..9] == " // c\r)"
  {
  }

  /** A whole query that loses its closing parenthesis: what is left of it, `(T`, is no query. */
  lemma LostParenthesis()
    ensures Nested(LOST_STATEMENT) && LOST_STATEMENT.end == |LOST_TEXT| && EndsText(LOST_STATEMENT, LOST_TEXT)
    ensures BodyEnd(LOST_TEXT, Some(LOST_STATEMENT)) == 2 && QueryOf(LOST_TEXT, 2) == Reading(LOST_TEXT[..2], ")")
  {
    LostStatement();
    LostTailIs();
    LoneReturnLosesCode();
    LostTail(LOST_TEXT, LOST_STATEMENT, " // c\r)");
  }
}
