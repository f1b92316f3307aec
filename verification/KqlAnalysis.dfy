/** The `Analysis` record and the walk that fills it, as crates/kql-parser/src/lib.rs has them. */
module KqlAnalysis {
  import opened Wrappers
  import Text
  import opened KqlTree
  import opened KqlWalk
  import opened KqlOccurrence

  class Analysis {
    var tables: set<string>
    var tablePatterns: set<string>
    var functions: set<string>
    var plugins: set<string>
    var invoked: set<string>
    var crossCluster: bool
    var externalData: bool
    var unscopedSearch: bool
    var setOptions: set<string>
    var letNames: set<string>
    var operators: set<Op>
    var names: set<string>
    var declared: set<string>
    var ungroupedAggregate: bool
    var timeLiterals: bool

    constructor ()
      ensures forall f :: !Has(f)
    {
      tables, tablePatterns, functions, plugins, invoked := {}, {}, {}, {}, {};
      crossCluster, externalData, unscopedSearch := false, false, false;
      setOptions, letNames, operators, names, declared := {}, {}, {}, {}, {};
      ungroupedAggregate, timeLiterals := false, false;
    }

    predicate Has(f: Fact)
      reads this
    {
      match f
      case Table(n) => n in tables
      case Pattern(n) => n in tablePatterns
      case Function(n) => n in functions
      case Plugin(n) => n in plugins
      case Invoked(n) => n in invoked
      case CrossCluster => crossCluster
      case ExternalData => externalData
      case UnscopedSearch => unscopedSearch
      case SetOption(n) => n in setOptions
      case LetName(n) => n in letNames
      case Operator(op) => op in operators
      case Name(n) => n in names
      case DeclaredName(n) => n in declared
      case UngroupedAggregate => ungroupedAggregate
      case TimeLiteral => timeLiterals
    }

    method Record(f: Fact)
      modifies this
      ensures forall g :: Has(g) <==> old(Has(g)) || g == f
    {
      match f
      case Table(n) => tables := tables + {n};
      case Pattern(n) => tablePatterns := tablePatterns + {n};
      case Function(n) => functions := functions + {n};
      case Plugin(n) => plugins := plugins + {n};
      case Invoked(n) => invoked := invoked + {n};
      case CrossCluster => crossCluster := true;
      case ExternalData => externalData := true;
      case UnscopedSearch => unscopedSearch := true;
      case SetOption(n) => setOptions := setOptions + {n};
      case LetName(n) => letNames := letNames + {n};
      case Operator(op) => operators := operators + {op};
      case Name(n) => names := names + {n};
      case DeclaredName(n) => declared := declared + {n};
      case UngroupedAggregate => ungroupedAggregate := true;
      case TimeLiteral => timeLiterals := true;
    }

    /** The call at one position of a postfix chain, if there is one. */
    method RecordCall(t: Tree, i: nat)
      requires i < |t.kids|
      modifies this
      ensures forall f :: Has(f) <==> old(Has(f)) || f in CallFacts(t, i)
    {
      if t.kids[i].rule.CallArgs? && i > 0 && (t.kids[i - 1].rule.NameRef? || t.kids[i - 1].rule.Member?) {
        var callee := t.kids[i - 1];
        var name :=
          if callee.rule.NameRef? then NameText(callee)
          else if callee.kids == [] then ""
          else NameText(callee.kids[0]);
        if name == "cluster" || name == "database" {
          Record(CrossCluster);
        } else if name == "external_table" {
          Record(ExternalData);
        } else if name == "table" && t.kids[i].kids != [] {
          var arg := HeadOfString(t.kids[i].kids[0]);
          if arg.Some? { Record(Table(arg.value)); }
        }
        Record(Function(name));
      }
    }

    /** The function calls of a postfix chain. */
    method RecordCalls(t: Tree)
      modifies this
      ensures forall f :: Has(f) <==> old(Has(f)) || f in ChainFacts(t, |t.kids|)
    {
      for i := 0 to |t.kids|
        invariant forall f :: Has(f) <==> old(Has(f)) || f in ChainFacts(t, i)
      {
        RecordCall(t, i);
      }
    }

    /** What a query operator says about itself. */
    method RecordOperator(t: Tree, op: Op)
      modifies this
      ensures forall f :: Has(f) <==> old(Has(f)) || f in OpFacts(t, op)
    {
      if (op.FindOp? || op.SearchOp?) && !HasKid(t, KwIn) { Record(UnscopedSearch); }
      if op.ExternalDataOp? { Record(ExternalData); }
      if op.CountOp? || (op.SummarizeOp? && !HasKid(t, KwBy)) { Record(UngroupedAggregate); }
      if op.InvokeOp? {
        var post := FirstKid(t.kids, Postfix);
        if post.Some? && post.value.kids != [] && post.value.kids[0].rule.NameRef? {
          Record(Invoked(NameText(post.value.kids[0])));
        }
      }
      Record(Operator(op));
    }

    /** Walk a tree, adding what it says to what is already recorded: walking from any analysis
        gives that analysis joined with the walk from an empty one. */
    method Walk(t: Tree, tabular: bool)
      modifies this
      ensures forall f :: Has(f) <==> old(Has(f)) || f in Facts(t, tabular)
      decreases t, 1
    {
      match t.rule {
        case LetStmt =>
          if |t.kids| >= 2 {
            Record(LetName(NameText(t.kids[1])));
            WalkAll(t.kids[2..], true);
          }
        case SetStmt =>
          var o := FirstKid(t.kids, OptionName);
          if o.Some? { Record(SetOption(o.value.text)); }
        case FnParam =>
        case NameRef => Record(Name(NameText(t)));
        case NameDecl => Record(DeclaredName(NameText(t)));
        case TablePattern => Record(Pattern(t.text));
        case TypedLiteral => if IsTimeLiteral(t.text) { Record(TimeLiteral); }
        case PipeExpr => WalkPipe(t, tabular);
        case TabularOperand => WalkOperands(t.kids);
        case FindSource => WalkOperands(t.kids);
        case Postfix =>
          RecordCalls(t);
          WalkParts(t);
        case PluginCall =>
          if t.kids != [] { Record(Plugin(Text.ToLower(NameText(t.kids[0])))); }
          WalkAll(t.kids, false);
        case QueryOp(op) =>
          RecordOperator(t, op);
          WalkAll(t.kids, false);
        case _ => WalkAll(t.kids, false);
      }
    }

    method WalkAll(ts: seq<Tree>, tabular: bool)
      modifies this
      ensures forall f :: Has(f) <==> old(Has(f)) || f in FactsOfAll(ts, tabular)
      decreases ts, 0
    {
      if ts != [] {
        Walk(ts[0], tabular);
        WalkAll(ts[1..], tabular);
      }
    }

    method WalkPipe(t: Tree, tabular: bool)
      requires t.rule.PipeExpr?
      modifies this
      ensures forall f :: Has(f) <==> old(Has(f)) || f in Facts(t, tabular)
      decreases t, 0
    {
      if t.kids == [] { return; }
      var head := t.kids[0];
      var ops := t.kids[1..];
      var sourceIsTable := tabular || ops != [];
      var h := FindHead(head);
      if h.Named? && sourceIsTable {
        Record(Table(h.name));
      } else if h.Paren? && sourceIsTable {
        WalkAll(h.pair.kids, true);
      } else {
        Walk(head, false);
      }
      WalkAll(ops, false);
    }

    method WalkOperands(ts: seq<Tree>)
      modifies this
      ensures forall f :: Has(f) <==> old(Has(f)) || f in FactsOfOperands(ts)
      decreases ts, 0
    {
      if ts == [] { return; }
      var c := ts[0];
      match c.rule {
        case ParenPipe => WalkAll(c.kids, true);
        case TablePattern => Record(Pattern(c.text));
        case Postfix =>
          var h := FindHead(c);
          if h.Named? { Record(Table(h.name)); } else { Walk(c, false); }
        case _ => Walk(c, true);
      }
      WalkOperands(ts[1..]);
    }

    /** A callee is a function, not a column: walk everything but the names that are called. */
    method WalkParts(t: Tree)
      modifies this
      ensures forall f :: Has(f) <==> old(Has(f)) || f in FactsOfParts(t, |t.kids|)
      decreases t, 0
    {
      for i := 0 to |t.kids|
        invariant forall f :: Has(f) <==> old(Has(f)) || f in FactsOfParts(t, i)
      {
        if !IsCallee(t, i) { Walk(t.kids[i], false); }
      }
    }
  }

  // ------------------------------------------------------------------ a whole query

  /** The analysis of a `query` tree: every statement walked, then the let-bound names taken out of
      the tables. */
  function Analyze(query: Tree): set<Fact> {
    var all := FactsOfAll(query.kids, true);
    set f | f in all && !(f.Table? && LetName(f.name) in all)
  }

  lemma FactsSnoc(ts: seq<Tree>, t: Tree)
    ensures FactsOfAll(ts + [t], true) == FactsOfAll(ts, true) + Facts(t, true)
  {
    if ts == [] {
      assert ([] + [t])[1..] == [];
    } else {
      assert (ts + [t])[1..] == ts[1..] + [t];
      FactsSnoc(ts[1..], t);
    }
  }

  method AnalyzeQuery(query: Tree) returns (a: Analysis)
    ensures fresh(a)
    ensures forall f :: a.Has(f) <==> f in Analyze(query)
  {
    a := new Analysis();
    for i := 0 to |query.kids|
      invariant forall f :: a.Has(f) <==> f in FactsOfAll(query.kids[..i], true)
    {
      a.Walk(query.kids[i], true);
      FactsSnoc(query.kids[..i], query.kids[i]);
      assert query.kids[..i + 1] == query.kids[..i] + [query.kids[i]];
    }
    assert query.kids[..|query.kids|] == query.kids;
    var all: set<Fact> := FactsOfAll(query.kids, true);
    assert forall n :: a.Has(Table(n)) <==> n in a.tables;
    assert forall n :: a.Has(LetName(n)) <==> n in a.letNames;
    var lets := a.letNames;
    while lets != {}
      modifies a
      invariant lets <= a.letNames
      invariant forall f :: a.Has(f) <==> f in all && !(f.Table? && f.name in a.letNames - lets)
      invariant forall n :: n in a.letNames <==> LetName(n) in all
    {
      var n :| n in lets;
      a.tables := a.tables - {n};
      lets := lets - {n};
    }
  }

  /** Table names are the sources read anywhere, less the names bound by `let` anywhere: a `let`
      that follows the use takes its name out just the same. */
  lemma TablesAreSourcesLessLets(query: Tree, name: string)
    requires Layered(query)
    ensures Table(name) in Analyze(query) <==>
              && (exists i :: 0 <= i < |query.kids| && Occurs(query.kids[i], Tabular, Table(name)))
              && !(exists i :: 0 <= i < |query.kids| && Occurs(query.kids[i], Tabular, LetName(name)))
  {
    AllMember(query.kids, true, Table(name));
    AllMember(query.kids, true, LetName(name));
    forall i | 0 <= i < |query.kids|
      ensures Table(name) in Facts(query.kids[i], true) <==> Occurs(query.kids[i], Tabular, Table(name))
      ensures LetName(name) in Facts(query.kids[i], true) <==> Occurs(query.kids[i], Tabular, LetName(name))
    {
      WalkIsOccurrence(query.kids[i], true, Table(name));
      WalkIsOccurrence(query.kids[i], true, LetName(name));
    }
  }

  /** Adding statements loses nothing but the tables they bind; in particular the analysis depends
      neither on the order of the statements nor on how often one is repeated. */
  lemma MoreStatementsMoreFacts(query: Tree, larger: Tree, f: Fact)
    requires forall t :: t in query.kids ==> t in larger.kids
    requires f in Analyze(query)
    ensures f in Analyze(larger) <==> !(f.Table? && LetName(f.name) in Analyze(larger))
  {
    AllMember(query.kids, true, f);
    AllMember(larger.kids, true, f);
    var i :| 0 <= i < |query.kids| && f in Facts(query.kids[i], true);
    assert query.kids[i] in larger.kids;
    var j :| 0 <= j < |larger.kids| && larger.kids[j] == query.kids[i];
  }

  lemma StatementOrderIsIrrelevant(query: Tree, other: Tree)
    requires forall t :: t in query.kids <==> t in other.kids
    ensures Analyze(query) == Analyze(other)
  {
    forall f ensures f in FactsOfAll(query.kids, true) <==> f in FactsOfAll(other.kids, true) {
      AllMember(query.kids, true, f);
      AllMember(other.kids, true, f);
      if i :| 0 <= i < |query.kids| && f in Facts(query.kids[i], true) {
        assert query.kids[i] in other.kids;
      }
      if i :| 0 <= i < |other.kids| && f in Facts(other.kids[i], true) {
        assert other.kids[i] in query.kids;
      }
    }
  }
}
