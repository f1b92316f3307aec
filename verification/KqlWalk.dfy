/** The walk of crates/kql-parser/src/lib.rs: what a parse tree says about the query. */
module KqlWalk {
  import opened Wrappers
  import opened KqlTree
  import Text

  /** One thing an analysis can record. */
  datatype Fact =
    | Table(name: string)
    | Pattern(name: string)
    | Function(name: string)
    | Plugin(name: string)
    | Invoked(name: string)
    | CrossCluster
    | ExternalData
    | UnscopedSearch
    | SetOption(name: string)
    | LetName(name: string)
    | Operator(op: Op)
    | Name(name: string)
    | DeclaredName(name: string)
    | UngroupedAggregate
    | TimeLiteral

  // ------------------------------------------------------------------ what one node says

  /** The name called at position `i` of a postfix chain: `name(...)` or `.name(...)`. */
  function CalledAt(t: Tree, i: nat): Option<string> {
    if !(1 <= i < |t.kids| && t.kids[i].rule.CallArgs?) then None
    else
      var callee := t.kids[i - 1];
      if callee.rule.NameRef? then Some(NameText(callee))
      else if callee.rule.Member? then Some(if callee.kids == [] then "" else NameText(callee.kids[0]))
      else None
  }

  function CallFacts(t: Tree, i: nat): set<Fact> {
    match CalledAt(t, i)
    case None => {}
    case Some(name) =>
      {Function(name)} +
      (if name == "cluster" || name == "database" then {CrossCluster}
       else if name == "external_table" then {ExternalData}
       else if name == "table" && t.kids[i].kids != [] && HeadOfString(t.kids[i].kids[0]).Some?
       then {Table(HeadOfString(t.kids[i].kids[0]).value)}
       else {})
  }

  function ChainFacts(t: Tree, n: nat): (fs: set<Fact>)
    requires n <= |t.kids|
    ensures forall f :: f in fs <==> exists i :: 0 <= i < n && f in CallFacts(t, i)
  {
    if n == 0 then {} else ChainFacts(t, n - 1) + CallFacts(t, n - 1)
  }

  predicate IsCallee(t: Tree, i: nat) {
    i + 1 < |t.kids| && t.kids[i].rule.NameRef? && t.kids[i + 1].rule.CallArgs?
  }

  predicate StartsWith(s: string, prefix: string) {
    prefix <= s
  }

  /** `datetime(...)` and `date(...)` literals. */
  predicate IsTimeLiteral(text: string) {
    var s := Text.ToLower(Text.TrimStart(text, Text.IsWhitespace));
    StartsWith(s, "datetime") || StartsWith(s, "date(") || StartsWith(s, "date ")
  }

  function OpFacts(t: Tree, op: Op): set<Fact> {
    {Operator(op)} +
    match op
    case FindOp => if HasKid(t, KwIn) then {} else {UnscopedSearch}
    case SearchOp => if HasKid(t, KwIn) then {} else {UnscopedSearch}
    case ExternalDataOp => {ExternalData}
    case CountOp => {UngroupedAggregate}
    case SummarizeOp => if HasKid(t, KwBy) then {} else {UngroupedAggregate}
    case InvokeOp =>
      var post := FirstKid(t.kids, Postfix);
      if post.Some? && post.value.kids != [] && post.value.kids[0].rule.NameRef?
      then {Invoked(NameText(post.value.kids[0]))}
      else {}
    case NamedOp(_) => {}
  }

  // ------------------------------------------------------------------ the walk

  function FactsOfOperand(c: Tree): set<Fact>
    decreases c, 2
  {
    match c.rule
    case ParenPipe => FactsOfAll(c.kids, true)
    case TablePattern => {Pattern(c.text)}
    case Postfix => if HeadOf(c).Named? then {Table(HeadOf(c).name)} else Facts(c, false)
    case _ => Facts(c, true)
  }

  function FactsOfOperands(ts: seq<Tree>): set<Fact>
    decreases ts, 0
  {
    if ts == [] then {} else FactsOfOperand(ts[0]) + FactsOfOperands(ts[1..])
  }

  /** The first `n` parts of a postfix chain, without the names that are only called. */
  function FactsOfParts(t: Tree, n: nat): set<Fact>
    requires n <= |t.kids|
    decreases t, 0, n
  {
    if n == 0 then {}
    else FactsOfParts(t, n - 1) + (if IsCallee(t, n - 1) then {} else Facts(t.kids[n - 1], false))
  }

  /** What the walk collects from a tree. `tabular`: a pipe's source is read as a table even
      without operators. */
  function Facts(t: Tree, tabular: bool): set<Fact>
    decreases t, 1
  {
    match t.rule
    case LetStmt =>
      if |t.kids| < 2 then {} else {LetName(NameText(t.kids[1]))} + FactsOfAll(t.kids[2..], true)
    case SetStmt =>
      var o := FirstKid(t.kids, OptionName);
      if o.Some? then {SetOption(o.value.text)} else {}
    case FnParam => {}
    case NameRef => {Name(NameText(t))}
    case NameDecl => {DeclaredName(NameText(t))}
    case TablePattern => {Pattern(t.text)}
    case TypedLiteral => if IsTimeLiteral(t.text) then {TimeLiteral} else {}
    case PipeExpr =>
      if t.kids == [] then {}
      else
        var sourceIsTable := tabular || |t.kids| > 1;
        (match HeadOf(t.kids[0])
         case Named(n) => if sourceIsTable then {Table(n)} else Facts(t.kids[0], false)
         case Paren(pair) => if sourceIsTable then FactsOfAll(pair.kids, true) else Facts(t.kids[0], false)
         case NoHead => Facts(t.kids[0], false))
        + FactsOfAll(t.kids[1..], false)
    case TabularOperand => FactsOfOperands(t.kids)
    case FindSource => FactsOfOperands(t.kids)
    case Postfix => ChainFacts(t, |t.kids|) + FactsOfParts(t, |t.kids|)
    case PluginCall =>
      (if t.kids == [] then {} else {Plugin(Text.ToLower(NameText(t.kids[0])))}) + FactsOfAll(t.kids, false)
    case QueryOp(op) => OpFacts(t, op) + FactsOfAll(t.kids, false)
    case _ => FactsOfAll(t.kids, false)
  }

  function FactsOfAll(ts: seq<Tree>, tabular: bool): set<Fact>
    decreases ts, 0
  {
    if ts == [] then {} else Facts(ts[0], tabular) + FactsOfAll(ts[1..], tabular)
  }
}
