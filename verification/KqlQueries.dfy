/** Whole queries whose analysis is not what the documentation of crates/kql-parser/src/lib.rs leads
    one to expect, as trees of the grammar. */
module KqlQueries {
  import opened KqlTree
  import opened KqlWalk
  import opened KqlOccurrence
  import opened KqlSources
  import opened KqlAnalysis

  /** The levels of precedence from a pipe's head down to a postfix expression. */
  const LAYERS: seq<string> := [
    "pipe_head", "expr", "or_expr", "and_expr", "equality", "relational", "additive", "multiplicative",
    "string_op_expr", "unary"
  ]

  function Wrapped(layers: seq<string>, t: Tree): Tree {
    if layers == [] then t else Node(Layer(layers[0]), t.text, [Wrapped(layers[1..], t)])
  }

  function Token(text: string): Tree {
    Node(Other("token"), text, [])
  }

  lemma TokenFacts(text: string)
    ensures Grammatical(Token(text)) && IsNameless(Token(text)) && Facts(Token(text), false) == {}
  {
  }

  /** A postfix expression of these parts, as the head of a pipe. */
  function Head(text: string, parts: seq<Tree>): Tree {
    Wrapped(LAYERS, Node(Postfix, text, parts))
  }

  function NameTree(n: string): Tree {
    Node(NameRef, n, [Token(n)])
  }

  function Bare(n: string): Tree {
    Node(PipeExpr, n, [Head(n, [NameTree(n)])])
  }

  lemma {:induction false} WrappedName(layers: seq<string>, n: string)
    ensures var t := Wrapped(layers, Node(Postfix, n, [NameTree(n)]));
      OnlyLayers(t) && HeadOf(t) == Named(n) && Grammatical(t) && (layers != [] ==> t.rule.Layer?)
  {
    var token := Token(n);
    assert Grammatical(token) && Grammatical(NameTree(n));
    if layers == [] {
      assert NameText(token) == n && NameText(NameTree(n)) == n;
    } else {
      WrappedName(layers[1..], n);
    }
  }

  /** A wrapped expression reads as what it wraps. */
  lemma {:induction false} WrappedFacts(layers: seq<string>, t: Tree)
    ensures Facts(Wrapped(layers, t), false) == Facts(t, false)
  {
    if layers != [] {
      WrappedFacts(layers[1..], t);
      OnlyOne(Wrapped(layers[1..], t), false);
    }
  }

  lemma {:induction false} WrappedGrammatical(layers: seq<string>, t: Tree)
    requires t.rule.Postfix? && Grammatical(t)
    ensures Grammatical(Wrapped(layers, t)) && (layers != [] ==> Wrapped(layers, t).rule.Layer?)
  {
    if layers != [] { WrappedGrammatical(layers[1..], t); }
  }

  lemma {:induction false} WrappedHead(layers: seq<string>, t: Tree)
    requires t.rule.Postfix?
    ensures HeadOf(Wrapped(layers, t)) == HeadOf(t)
  {
    if layers != [] { WrappedHead(layers[1..], t); }
  }

  lemma BareIsPipe(n: string)
    ensures IsPipeOf(Bare(n), n) && Grammatical(Bare(n)) && |Bare(n).kids| == 1
  {
    WrappedName(LAYERS, n);
  }

  lemma BareFacts(n: string)
    ensures Facts(Bare(n), true) == {Table(n)} && Facts(Bare(n), false) == {Name(n)}
  {
    BareIsPipe(n);
    LayersFacts(Bare(n).kids[0]);
    PipeFacts(Bare(n), n, false);
    assert Bare(n).kids[1..] == [];
  }

  function Query(statements: seq<Tree>): Tree {
    Node(Other("query"), "", statements + [Node(Eoi, "", [])])
  }

  /** A fact of a query's statements. */
  lemma InQuery(statements: seq<Tree>, f: Fact)
    ensures f in FactsOfAll(Query(statements).kids, true) <==>
              exists i :: 0 <= i < |statements| && f in Facts(statements[i], true)
  {
    var kids := Query(statements).kids;
    AllMember(kids, true, f);
    assert Facts(Node(Eoi, "", []), true) == {};
    if i :| 0 <= i < |kids| && f in Facts(kids[i], true) { assert kids[i] == statements[i]; }
    if i :| 0 <= i < |statements| && f in Facts(statements[i], true) { assert kids[i] == statements[i]; }
  }

  lemma StatementsGrammatical(statements: seq<Tree>)
    requires forall i :: 0 <= i < |statements| ==> Grammatical(statements[i])
    ensures Grammatical(Query(statements))
  {
    var eoi := Node(Eoi, "", []);
    assert Grammatical(eoi);
  }

  /** A fact of a query's analysis. */
  lemma InAnalysis(statements: seq<Tree>, f: Fact)
    requires forall i :: 0 <= i < |statements| ==> Grammatical(statements[i])
    ensures Grammatical(Query(statements))
    ensures f in Analyze(Query(statements)) <==>
              && (exists i :: 0 <= i < |statements| && f in Facts(statements[i], true))
              && (f.Table? ==> forall i :: 0 <= i < |statements| ==> LetName(f.name) !in Facts(statements[i], true))
  {
    StatementsGrammatical(statements);
    InQuery(statements, f);
    if f.Table? { InQuery(statements, LetName(f.name)); }
  }

  // ------------------------------------------------------------------ union

  /** A pipe in parentheses reads as the pipe. */
  lemma ParenFacts(pipe: Tree)
    requires Grammatical(pipe)
    ensures var c := Node(ParenPipe, "()", [pipe]); Grammatical(c) && Facts(c, false) == Facts(pipe, false)
  {
    OnlyOne(pipe, false);
  }

  lemma {:induction false} WrappedParens(layers: seq<string>, paren: Tree)
    requires paren.rule.ParenPipe? && Grammatical(paren)
    ensures var t := Wrapped(layers, Node(Postfix, "()", [paren]));
      OnlyLayers(t) && HeadOf(t) == Paren(paren) && Grammatical(t) && (layers != [] ==> t.rule.Layer?)
  {
    if layers != [] { WrappedParens(layers[1..], paren); }
  }

  lemma OnePipeFacts(head: Tree)
    requires head.rule.Layer? && Grammatical(head)
    ensures var p := Node(PipeExpr, "()", [head]); Grammatical(p) && Facts(p, false) == Facts(head, false)
  {
    assert FactsOfAll([], false) == {};
  }

  /** Parentheses read as what is in them, when no operators follow. */
  lemma HeadPipeFacts(paren: Tree)
    requires paren.rule.ParenPipe? && Grammatical(paren)
    ensures var p := Node(PipeExpr, "()", [Head("()", [paren])]);
      Grammatical(p) && OnlyLayers(p.kids[0]) && HeadOf(p.kids[0]) == Paren(paren)
          && Facts(p, false) == Facts(paren, false)
  {
    var head := Head("()", [paren]);
    WrappedParens(LAYERS, paren);
    LayersFacts(head);
    OnePipeFacts(head);
  }

  /** `n` in parentheses, one pair and as many more as `depth` says. */
  function Parens(n: string, depth: nat): Tree {
    Node(ParenPipe, "()", [if depth == 0 then Bare(n) else Node(PipeExpr, "()", [Head("()", [Parens(n, depth - 1)])])])
  }

  lemma {:induction false} ParensStand(n: string, depth: nat)
    ensures Grammatical(Parens(n, depth)) && Facts(Parens(n, depth), false) == {Name(n)}
  {
    if depth == 0 {
      BareIsPipe(n);
      BareFacts(n);
      ParenFacts(Bare(n));
    } else {
      var inner := Parens(n, depth - 1);
      ParensStand(n, depth - 1);
      HeadPipeFacts(inner);
      ParenFacts(Node(PipeExpr, "()", [Head("()", [inner])]));
    }
  }

  function UnionOp(n: string, depth: nat): Tree {
    Node(QueryOp(NamedOp("union_op")), "", [Token("union"), Parens(n, depth)])
  }

  lemma OperatorFacts(op: string, keyword: string, operand: Tree)
    ensures Facts(Node(QueryOp(NamedOp(op)), "", [Token(keyword), operand]), false)
            == {Operator(NamedOp(op))} + Facts(operand, false)
  {
    var kids := [Token(keyword), operand];
    TokenFacts(keyword);
    OnlyOne(operand, false);
    assert kids[1..] == [operand];
    assert FactsOfAll(kids, false) == Facts(operand, false);
  }

  lemma OperatorGrammatical(op: string, keyword: string, operand: Tree)
    requires Grammatical(operand)
    ensures Grammatical(Node(QueryOp(NamedOp(op)), "", [Token(keyword), operand]))
  {
    TokenFacts(keyword);
  }

  lemma UnionOpFacts(n: string, depth: nat)
    ensures Facts(UnionOp(n, depth), false) == {Operator(NamedOp("union_op")), Name(n)}
    ensures Grammatical(UnionOp(n, depth))
  {
    ParensStand(n, depth);
    OperatorFacts("union_op", "union", Parens(n, depth));
    OperatorGrammatical("union_op", "union", Parens(n, depth));
  }

  /** `a | union (b)`, with more parentheses around `b` as `depth` says. */
  function UnionPipe(a: string, b: string, depth: nat): Tree {
    Node(PipeExpr, "", [Head(a, [NameTree(a)]), UnionOp(b, depth)])
  }

  lemma UnionPipeFacts(a: string, b: string, depth: nat)
    ensures Facts(UnionPipe(a, b, depth), true) == {Table(a), Operator(NamedOp("union_op")), Name(b)}
    ensures Grammatical(UnionPipe(a, b, depth))
  {
    var pipe, op := UnionPipe(a, b, depth), UnionOp(b, depth);
    WrappedName(LAYERS, a);
    UnionOpFacts(b, depth);
    OnlyOne(op, false);
    assert pipe.kids[1..] == [op];
  }

  /** The parenthesized name is read as a column and not as a table. */
  lemma UnionMissesTable(a: string, b: string, depth: nat)
    requires a != b
    ensures var q := Query([UnionPipe(a, b, depth)]);
      Grammatical(q) && Table(a) in Analyze(q) && Table(b) !in Analyze(q) && Name(b) in Analyze(q)
  {
    var pipe := UnionPipe(a, b, depth);
    UnionPipeFacts(a, b, depth);
    InAnalysis([pipe], Table(a));
    InAnalysis([pipe], Table(b));
    InAnalysis([pipe], Name(b));
    assert [pipe][0] == pipe;
  }

  // ------------------------------------------------------------------ let

  /** `let x = value` */
  function Let(x: string, value: Tree): Tree {
    Node(LetStmt, "", [Token("let"), Node(NameDecl, x, [Token(x)]), value])
  }

  lemma LetGrammatical(x: string, value: Tree)
    requires Grammatical(value) && (value.rule.PipeExpr? || value.rule == FUNCTION_DECL)
    ensures Grammatical(Let(x, value))
  {
    TokenFacts(x);
    TokenFacts("let");
    assert Grammatical(Node(NameDecl, x, [Token(x)]));
  }

  lemma LetFacts(x: string, value: Tree)
    ensures Facts(Let(x, value), true) == {LetName(x)} + Facts(value, true)
  {
    OnlyOne(value, true);
    assert Let(x, value).kids[2..] == [value];
    assert NameText(Node(NameDecl, x, [Token(x)])) == NameText(Token(x));
  }

  /** `1` */
  function LiteralPipe(text: string): Tree {
    Node(PipeExpr, text, [Head(text, [Token(text)])])
  }

  lemma LiteralFacts(text: string)
    ensures var t := Node(Postfix, text, [Token(text)]); Facts(t, false) == {} && Grammatical(t) && HeadOf(t).NoHead?
  {
    var t := Node(Postfix, text, [Token(text)]);
    assert Grammatical(Token(text)) && Facts(Token(text), false) == {};
    assert ChainFacts(t, 0) == {} && CallFacts(t, 0) == {} && ChainFacts(t, 1) == {};
    assert FactsOfParts(t, 0) == {} && FactsOfParts(t, 1) == {};
  }

  lemma LiteralPipeFacts(text: string)
    ensures Facts(LiteralPipe(text), true) == {} && Grammatical(LiteralPipe(text))
  {
    var t := Node(Postfix, text, [Token(text)]);
    LiteralFacts(text);
    WrappedGrammatical(LAYERS, t);
    WrappedHead(LAYERS, t);
    WrappedFacts(LAYERS, t);
    assert LiteralPipe(text).kids[1..] == [];
  }

  /** `let n = 1` */
  function LetOne(n: string): Tree {
    Let(n, LiteralPipe("1"))
  }

  lemma LetOneFacts(n: string)
    ensures Facts(LetOne(n), true) == {LetName(n)} && Grammatical(LetOne(n))
  {
    LiteralPipeFacts("1");
    LetGrammatical(n, LiteralPipe("1"));
    LetFacts(n, LiteralPipe("1"));
  }

  lemma BareReadsTable(n: string)
    ensures Grammatical(Query([Bare(n)])) && Table(n) in Analyze(Query([Bare(n)]))
  {
    BareIsPipe(n);
    BareFacts(n);
    InAnalysis([Bare(n)], Table(n));
    assert [Bare(n)][0] == Bare(n);
  }

  lemma BoundIsNoTable(use: Tree, bind: Tree, n: string)
    requires Grammatical(use) && Grammatical(bind) && LetName(n) in Facts(bind, true)
    ensures Grammatical(Query([use, bind])) && Table(n) !in Analyze(Query([use, bind]))
  {
    InAnalysis([use, bind], Table(n));
    assert [use, bind][1] == bind;
  }

  /** Tables are not monotone: `n; let n = 1` reads no table, though `n` alone does. */
  lemma TablesAreNotMonotone(n: string)
    ensures var alone, bound := Query([Bare(n)]), Query([Bare(n), LetOne(n)]);
      && Grammatical(alone) && Grammatical(bound)
      && Table(n) in Analyze(alone) && Table(n) !in Analyze(bound)
  {
    BareReadsTable(n);
    BareIsPipe(n);
    LetOneFacts(n);
    BoundIsNoTable(Bare(n), LetOne(n), n);
  }

  /** `let x = n` reads the table it names, as documented for values of `let`. */
  lemma LetReadsTable(x: string, n: string)
    requires x != n
    ensures var q := Query([Let(x, Bare(n))]); Grammatical(q) && Table(n) in Analyze(q)
  {
    var t := Let(x, Bare(n));
    BareIsPipe(n);
    BareFacts(n);
    LetGrammatical(x, Bare(n));
    LetFacts(x, Bare(n));
    InAnalysis([t], Table(n));
    assert [t][0] == t;
  }

  // ------------------------------------------------------------------ functions

  /** `() { n }` */
  function FunctionOf(n: string): Tree {
    Node(FUNCTION_DECL, "", [Node(FN_BODY, "", [Bare(n)])])
  }

  /** `f()` */
  function CallPipe(f: string): Tree {
    Node(PipeExpr, "", [Head(f + "()", [NameTree(f), Node(CallArgs, "()", [])])])
  }

  lemma FunctionFacts(n: string)
    ensures Facts(FunctionOf(n), true) == {Name(n)} && Grammatical(FunctionOf(n))
  {
    BareIsPipe(n);
    BareFacts(n);
    var body := Node(FN_BODY, "", [Bare(n)]);
    assert Grammatical(body);
    OnlyOne(Bare(n), false);
    OnlyOne(body, false);
  }

  lemma CallFactsOnly(f: string, text: string)
    ensures var call := Node(Postfix, text, [NameTree(f), Node(CallArgs, "()", [])]);
      Grammatical(call) && forall n :: Table(n) !in Facts(call, false)
  {
    var call := Node(Postfix, text, [NameTree(f), Node(CallArgs, "()", [])]);
    assert Grammatical(Token(f)) && Grammatical(NameTree(f)) && Grammatical(call.kids[1]);
    assert FactsOfParts(call, 0) == {} && FactsOfParts(call, 1) == {} && FactsOfParts(call, 2) == {};
    forall n ensures Table(n) !in ChainFacts(call, 2) {
      assert CallFacts(call, 0) == {} && Table(n) !in CallFacts(call, 1);
    }
  }

  lemma CallPipeFacts(f: string)
    ensures Grammatical(CallPipe(f)) && forall n :: Table(n) !in Facts(CallPipe(f), true)
  {
    var call := Node(Postfix, f + "()", [NameTree(f), Node(CallArgs, "()", [])]);
    CallFactsOnly(f, f + "()");
    WrappedGrammatical(LAYERS, call);
    WrappedHead(LAYERS, call);
    WrappedFacts(LAYERS, call);
    assert CallPipe(f).kids[1..] == [];
    assert Facts(CallPipe(f), true) == Facts(call, false);
  }

  /** In `let f = () { n }; f()` the table that the function's body names is not among the tables. */
  lemma FunctionMissesTable(f: string, n: string)
    ensures var q := Query([Let(f, FunctionOf(n)), CallPipe(f)]);
      Grammatical(q) && Table(n) !in Analyze(q) && Name(n) in Analyze(q)
  {
    var statements := [Let(f, FunctionOf(n)), CallPipe(f)];
    FunctionFacts(n);
    LetGrammatical(f, FunctionOf(n));
    LetFacts(f, FunctionOf(n));
    CallPipeFacts(f);
    InAnalysis(statements, Table(n));
    InAnalysis(statements, Name(n));
    assert statements[0] == Let(f, FunctionOf(n));
  }
}
