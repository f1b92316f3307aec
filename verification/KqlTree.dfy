/** Parse trees of the KQL grammar, and the small readers of crates/kql-parser/src/lib.rs. */
module KqlTree {
  import opened Wrappers

  /** Query operators the walk tells apart; every other one is known by its name alone. */
  datatype Op = FindOp | SearchOp | ExternalDataOp | CountOp | SummarizeOp | InvokeOp | NamedOp(name: string)

  /** The grammar's rules, as far as the walk tells them apart. `Layer` is a level of expression
      precedence (`pipe_head`, `expr`, ..., `unary`), `ExprOp` an expression operator. */
  datatype Rule =
    | LetStmt | SetStmt | PipeExpr | FnParam | OptionName
    | NameRef | NameDecl | BracketName | StringLit | TypedLiteral | TablePattern
    | TabularOperand | FindSource | ParenPipe
    | Postfix | CallArgs | Member | PluginCall
    | KwIn | KwBy | Eoi
    | QueryOp(op: Op) | ExprOp(opName: string) | Layer(layer: string) | Other(ruleName: string)

  datatype Tree = Node(rule: Rule, text: string, kids: seq<Tree>)

  function DropWhile(s: string, cs: set<char>): string {
    if s != [] && s[0] in cs then DropWhile(s[1..], cs) else s
  }

  predicate QuotedBy(s: string, q: string) {
    |s| >= 2 * |q| && q <= s && s[|s| - |q|..] == q
  }

  /** A string literal without its quotes and prefixes. */
  function Unquote(literal: string): string {
    var s := DropWhile(DropWhile(literal, {'h', 'H'}), {'@'});
    if QuotedBy(s, "```") then s[3..|s| - 3]
    else if QuotedBy(s, "~~~") then s[3..|s| - 3]
    else if |s| < 2 then ""
    else s[1..|s| - 1]
  }

  function NameText(t: Tree): string {
    match t.rule
    case NameRef => if t.kids == [] then "" else NameText(t.kids[0])
    case NameDecl => if t.kids == [] then "" else NameText(t.kids[0])
    case BracketName => if t.kids == [] then "" else Unquote(t.kids[0].text)
    case _ => t.text
  }

  datatype Head = Named(name: string) | Paren(pair: Tree) | NoHead

  /** Follow single-child nodes down to a bare name or a parenthesized pipe. */
  function HeadOf(t: Tree): (h: Head)
    ensures h.Paren? ==> h.pair.rule.ParenPipe? && (h.pair == t || h.pair < t)
  {
    if t.rule.NameRef? then Named(NameText(t))
    else if t.rule.ParenPipe? then Paren(t)
    else if |t.kids| == 1 then HeadOf(t.kids[0])
    else NoHead
  }

  method FindHead(t: Tree) returns (h: Head)
    ensures h == HeadOf(t)
  {
    var cur := t;
    while true
      invariant HeadOf(cur) == HeadOf(t)
      decreases cur
    {
      if cur.rule.NameRef? { return Named(NameText(cur)); }
      if cur.rule.ParenPipe? { return Paren(cur); }
      if |cur.kids| != 1 { return NoHead; }
      cur := cur.kids[0];
    }
  }

  /** The value of an argument that is a single string literal. */
  function HeadOfString(t: Tree): Option<string> {
    if t.rule.StringLit? then Some(Unquote(t.text))
    else if |t.kids| == 1 then HeadOfString(t.kids[0])
    else None
  }

  predicate HasKid(t: Tree, rule: Rule) {
    exists i :: 0 <= i < |t.kids| && t.kids[i].rule == rule
  }

  predicate IsFirstOf(ts: seq<Tree>, rule: Rule, i: int) {
    0 <= i < |ts| && ts[i].rule == rule && forall j :: 0 <= j < i ==> ts[j].rule != rule
  }

  /** The first child of a rule. */
  function FirstKid(ts: seq<Tree>, rule: Rule): (r: Option<Tree>)
    ensures r.Some? ==> exists i :: IsFirstOf(ts, rule, i) && ts[i] == r.value
    ensures r.None? ==> forall i :: 0 <= i < |ts| ==> ts[i].rule != rule
  {
    if ts == [] then None
    else if ts[0].rule == rule then assert IsFirstOf(ts, rule, 0); Some(ts[0])
    else
      var r := FirstKid(ts[1..], rule);
      assert r.Some? ==> exists i :: IsFirstOf(ts, rule, i) && ts[i] == r.value by {
        if r.Some? {
          var i :| IsFirstOf(ts[1..], rule, i) && ts[1..][i] == r.value;
          assert IsFirstOf(ts, rule, i + 1) by {
            forall j | 0 <= j < i + 1 ensures ts[j].rule != rule { if j > 0 { assert ts[1..][j - 1].rule != rule; } }
          }
        }
      }
      assert r.None? ==> forall i :: 1 <= i < |ts| ==> ts[i] == ts[1..][i - 1];
      r
  }
}
