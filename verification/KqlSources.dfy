/** Which names the walk takes for tables: `let` values, parenthesized operands and functions. */
module KqlSources {
  import opened Wrappers
  import Text
  import opened KqlTree
  import opened KqlWalk
  import opened KqlOccurrence

  /** Expression layers read as what they stand for. */
  lemma {:induction false} LayersFacts(t: Tree)
    requires OnlyLayers(t)
    ensures HeadOf(t).Named? ==> Facts(t, false) == {Name(HeadOf(t).name)}
    ensures HeadOf(t).Paren? ==> Facts(t, false) == Facts(HeadOf(t).pair, false)
  {
    if !t.rule.NameRef? && !t.rule.ParenPipe? {
      LayersFacts(t.kids[0]);
      if t.rule.Postfix? {
        assert ChainFacts(t, 1) == {} by { assert ChainFacts(t, 0) == {} && CallFacts(t, 0) == {}; }
        assert FactsOfParts(t, 1) == Facts(t.kids[0], false) by { assert FactsOfParts(t, 0) == {}; }
      } else {
        assert FactsOfAll(t.kids[1..], false) == {};
      }
    }
  }

  lemma OnlyOne(t: Tree, tabular: bool)
    ensures FactsOfAll([t], tabular) == Facts(t, tabular)
  {
    assert [t][1..] == [];
  }

  lemma PipeFacts(pipe: Tree, n: string, tabular: bool)
    requires pipe.rule.PipeExpr? && pipe.kids != [] && HeadOf(pipe.kids[0]) == Named(n)
    ensures tabular || |pipe.kids| > 1 ==> Table(n) in Facts(pipe, tabular)
    ensures !tabular && |pipe.kids| == 1 ==> Facts(pipe, tabular) == Facts(pipe.kids[0], false)
  {
    if |pipe.kids| == 1 { assert pipe.kids[1..] == []; }
  }

  /** A pipe that starts with a name. */
  predicate IsNamedPipe(pipe: Tree) {
    pipe.rule.PipeExpr? && pipe.kids != [] && OnlyLayers(pipe.kids[0]) && HeadOf(pipe.kids[0]).Named?
  }

  predicate IsPipeOf(pipe: Tree, n: string) {
    IsNamedPipe(pipe) && HeadOf(pipe.kids[0]).name == n
  }

  lemma PipeNamesTable(pipe: Tree, n: string)
    requires IsPipeOf(pipe, n)
    ensures Table(n) in Facts(pipe, true)
    ensures Table(n) in Facts(pipe, false) <==> |pipe.kids| > 1
  {
    LayersFacts(pipe.kids[0]);
    PipeFacts(pipe, n, true);
    PipeFacts(pipe, n, false);
  }

  /** A `let` value names its table, whether operators follow or not. */
  lemma LetValueNamesTable(t: Tree, n: string, tabular: bool)
    requires t.rule.LetStmt? && |t.kids| == 3 && IsPipeOf(t.kids[2], n)
    ensures Table(n) in Facts(t, tabular)
  {
    PipeNamesTable(t.kids[2], n);
    OnlyOne(t.kids[2], true);
    assert t.kids[2..] == [t.kids[2]];
  }

  /** A name in parentheses, however many. */
  predicate IsParenthesized(c: Tree, n: string) {
    && c.rule.ParenPipe? && |c.kids| == 1
    && var pipe := c.kids[0];
       pipe.rule.PipeExpr? && pipe.kids != [] && OnlyLayers(pipe.kids[0])
           && match HeadOf(pipe.kids[0])
              case Named(name) => name == n
              case Paren(inner) => IsParenthesized(inner, n)
              case NoHead => false
  }

  /** Operators follow inside some of the parentheses. */
  predicate HasOperators(c: Tree) {
    c.rule.ParenPipe? && |c.kids| == 1
        && var pipe := c.kids[0];
           pipe.rule.PipeExpr? && pipe.kids != []
               && (|pipe.kids| > 1 || (HeadOf(pipe.kids[0]).Paren? && HasOperators(HeadOf(pipe.kids[0]).pair)))
  }

  /** Read as a table source, the name is a table whatever follows it. */
  lemma {:induction false} ParenthesizedSource(c: Tree, n: string)
    requires IsParenthesized(c, n)
    ensures Table(n) in FactsOfAll(c.kids, true)
    decreases c
  {
    var pipe := c.kids[0];
    OnlyOne(pipe, true);
    assert c.kids == [pipe];
    if HeadOf(pipe.kids[0]).Paren? { ParenthesizedSource(HeadOf(pipe.kids[0]).pair, n); }
  }

  /** A name in parentheses is a table as the operand of a `join` or `lookup`, but as an operand of
      `union`, which is walked like any other value, only when operators follow inside some of the
      parentheses. */
  lemma {:induction false} ParenthesizedOperand(c: Tree, n: string)
    requires IsParenthesized(c, n)
    ensures Table(n) in FactsOfOperand(c)
    ensures Table(n) in Facts(c, false) <==> HasOperators(c)
    decreases c
  {
    var pipe := c.kids[0];
    OnlyOne(pipe, false);
    assert c.kids == [pipe];
    ParenthesizedSource(c, n);
    if |pipe.kids| == 1 {
      LayersFacts(pipe.kids[0]);
      assert pipe.kids[1..] == [];
    }
    if HeadOf(pipe.kids[0]).Paren? {
      var inner := HeadOf(pipe.kids[0]).pair;
      ParenthesizedSource(inner, n);
      ParenthesizedOperand(inner, n);
    }
  }

  function BodyOf(decl: Tree): Tree
    requires IsFunction(decl)
  {
    decl.kids[|decl.kids| - 1]
  }

  /** Parameters say nothing. */
  lemma FunctionIsBody(decl: Tree, tabular: bool, f: Fact)
    requires IsFunction(decl)
    ensures f in Facts(decl, tabular) <==> f in Facts(BodyOf(decl), false)
  {
    var last := |decl.kids| - 1;
    assert Facts(decl, tabular) == FactsOfAll(decl.kids, false);
    AllMember(decl.kids, false, f);
    forall i | 0 <= i < last ensures f !in Facts(decl.kids[i], false) { assert decl.kids[i].rule.FnParam?; }
  }

  /** A function names a table exactly when some statement of its body does that is walked like any
      other value. */
  lemma FunctionNamesTable(decl: Tree, n: string, tabular: bool)
    requires IsFunction(decl)
    ensures Table(n) in Facts(decl, tabular) <==>
              exists i :: 0 <= i < |BodyOf(decl).kids| && Table(n) in Facts(BodyOf(decl).kids[i], false)
  {
    FunctionIsBody(decl, tabular, Table(n));
    AllMember(BodyOf(decl).kids, false, Table(n));
  }

  /** Operators follow the name, or read the table themselves. */
  predicate NamesWithOperators(pipe: Tree, n: string) {
    (IsPipeOf(pipe, n) && |pipe.kids| > 1) || (pipe.kids != [] && Table(n) in FactsOfAll(pipe.kids[1..], false))
  }

  /** So a function whose statements are pipes over names has the tables that operators follow or
      read, and no other. */
  lemma FunctionBodyStatement(decl: Tree, n: string, tabular: bool)
    requires IsFunction(decl) && forall i :: 0 <= i < |BodyOf(decl).kids| ==> IsNamedPipe(BodyOf(decl).kids[i])
    ensures Table(n) in Facts(decl, tabular) <==>
              exists i :: 0 <= i < |BodyOf(decl).kids| && NamesWithOperators(BodyOf(decl).kids[i], n)
  {
    var body := BodyOf(decl);
    FunctionNamesTable(decl, n, tabular);
    forall i | 0 <= i < |body.kids|
      ensures Table(n) in Facts(body.kids[i], false) <==> NamesWithOperators(body.kids[i], n)
    {
      LayersFacts(body.kids[i].kids[0]);
    }
  }

  // ------------------------------------------------------------------ table("name")

  lemma {:induction false} Dropped(prefix: string, rest: string, cs: set<char>)
    requires (forall i :: 0 <= i < |prefix| ==> prefix[i] in cs) && (rest == "" || rest[0] !in cs)
    ensures DropWhile(prefix + rest, cs) == rest
    decreases |prefix|
  {
    if prefix == "" {
      assert prefix + rest == rest;
    } else {
      assert (prefix + rest)[1..] == prefix[1..] + rest;
      Dropped(prefix[1..], rest, cs);
    }
  }

  /** The prefixes of a string literal. */
  predicate ArePrefixes(hs: string, ats: string) {
    (forall i :: 0 <= i < |hs| ==> hs[i] in {'h', 'H'}) && forall i :: 0 <= i < |ats| ==> ats[i] in {'@'}
  }

  /** A literal in single or double quotes says what stands between them. */
  lemma QuotedSays(hs: string, ats: string, quote: char, body: string)
    requires ArePrefixes(hs, ats) && quote in {'"', '\''}
    ensures var text := hs + (ats + ([quote] + body + [quote]));
      && Unquote(text) == body
      && NameText(Node(NameRef, "", [Node(BracketName, "", [Node(StringLit, text, [])])])) == body
      && NameText(Node(NameDecl, "", [Node(BracketName, "", [Node(StringLit, text, [])])])) == body
      && HeadOfString(Node(StringLit, text, [])) == Some(body)
  {
    var text := hs + (ats + ([quote] + body + [quote]));
    assert NameText(Node(BracketName, "", [Node(StringLit, text, [])])) == Unquote(text);
    var quoted := [quote] + body + [quote];
    assert quoted[0] == quote && (ats + quoted)[0] in {'@', quote};
    Dropped(hs, ats + quoted, {'h', 'H'});
    Dropped(ats, quoted, {'@'});
    assert quoted[1..|quoted| - 1] == body;
    assert "```"[0] == '`' && "~~~"[0] == '~';
  }

  /** And one in three backticks or tildes what stands between those. */
  lemma TripleQuotedSays(hs: string, ats: string, quotes: string, body: string)
    requires ArePrefixes(hs, ats) && quotes in {"```", "~~~"}
    ensures Unquote(hs + (ats + (quotes + body + quotes))) == body
  {
    var quoted := quotes + body + quotes;
    assert quoted[0] == quotes[0] && (ats + quoted)[0] in {'@', quotes[0]};
    Dropped(hs, ats + quoted, {'h', 'H'});
    Dropped(ats, quoted, {'@'});
    assert quotes <= quoted && quoted[|quoted| - 3..] == quotes && quoted[3..|quoted| - 3] == body;
    assert "```"[0] == '`' && "~~~"[0] == '~';
  }

  /** A call of `table` with one string names that table, wherever it stands in a chain. */
  lemma TableCallNamesTable(t: Tree, i: nat, literal: string, tabular: bool)
    requires t.rule.Postfix? && 1 <= i < |t.kids| && t.kids[i].rule.CallArgs? && t.kids[i].kids != []
    requires t.kids[i - 1].rule.NameRef? && NameText(t.kids[i - 1]) == "table"
    requires HeadOfString(t.kids[i].kids[0]) == Some(literal)
    ensures Table(literal) in Facts(t, tabular)
  {
    assert "table" != "cluster" && "table" != "database" && "table" != "external_table" by {
      assert |"table"| == 5 && |"cluster"| == 7 && |"database"| == 8 && |"external_table"| == 14;
    }
    assert Table(literal) in CallFacts(t, i);
  }

  /** An argument of several parts says no string, so such a call names no table. */
  lemma NoStringNoTable(t: Tree, i: nat, n: string)
    requires t.rule.Postfix? && 1 <= i < |t.kids| && t.kids[i].rule.CallArgs? && t.kids[i].kids != []
    requires var arg := t.kids[i].kids[0]; !arg.rule.StringLit? && |arg.kids| != 1
    ensures HeadOfString(t.kids[i].kids[0]).None? && Table(n) !in CallFacts(t, i)
  {
  }

  // ------------------------------------------------------------------ names and callees

  lemma {:induction false} PartRecorded(t: Tree, n: nat, i: nat)
    requires i < n <= |t.kids| && !IsCallee(t, i)
    ensures Facts(t.kids[i], false) <= FactsOfParts(t, n)
  {
    if i < n - 1 { PartRecorded(t, n - 1, i); }
  }

  /** A name in a postfix chain is recorded unless arguments follow it right away. */
  lemma NameIsRecorded(t: Tree, i: nat, tabular: bool)
    requires t.rule.Postfix? && i < |t.kids| && t.kids[i].rule.NameRef?
    requires i + 1 == |t.kids| || !t.kids[i + 1].rule.CallArgs?
    ensures Name(NameText(t.kids[i])) in Facts(t, tabular)
  {
    PartRecorded(t, |t.kids|, i);
  }

  /** `f(x)`, with nothing else about it, records the function and not its name. */
  lemma CalleeIsFunction(name: Tree, args: Tree, text: string, tabular: bool)
    requires name.rule.NameRef? && args == Node(CallArgs, args.text, [])
    ensures var t := Node(Postfix, text, [name, args]);
      Function(NameText(name)) in Facts(t, tabular) && Name(NameText(name)) !in Facts(t, tabular)
  {
    var t := Node(Postfix, text, [name, args]);
    assert Function(NameText(name)) in CallFacts(t, 1);
    assert |t.kids| == 2 && t.kids[0] == name && t.kids[1] == args && Facts(args, false) == {};
    assert FactsOfParts(t, 0) == {} && FactsOfParts(t, 1) == {} && FactsOfParts(t, 2) == {};
    forall f | f in ChainFacts(t, 2) ensures !f.Name? {
      var k :| 0 <= k < 2 && f in CallFacts(t, k);
    }
  }

  // ------------------------------------------------------------------ time literals

  /** A literal is a time exactly when, white space before it and case aside, it begins with `datetime`,
      or with `date` and a parenthesis or space. */
  lemma TimeLiteralExactly(before: string, word: string)
    requires (forall c :: c in before ==> c in Text.WHITE_SPACE) && word != "" && word[0] !in Text.WHITE_SPACE
    ensures IsTimeLiteral(before + word) <==>
              var s := Text.ToLower(word); "datetime" <= s || "date(" <= s || "date " <= s
  {
    var text := before + word;
    forall i | 0 <= i < |before| ensures Text.IsWhitespace(text[i]) {
      assert before[i] in before && text[i] == before[i];
      Text.WhitespaceIs(before[i]);
    }
    Text.WhitespaceIs(word[0]);
    assert text[|before|] == word[0] && Text.Leading(text, Text.IsWhitespace) == |before|;
    assert text[|before|..] == word;
  }
}
