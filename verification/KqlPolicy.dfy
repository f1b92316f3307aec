/** The read-only policy of crates/kql-parser/src/policy.rs: what is refused, and why. */
module KqlPolicy {
  import opened Wrappers
  import Text
  import opened KqlTree
  import opened KqlWalk
  import opened KqlOccurrence
  import opened KqlAnalysis
  import opened KqlPosition
  import opened KqlLeadingDot
  import opened KqlOpeningDot

  /** Plugins that reach a service outside the data being queried. */
  const EXTERNAL_PLUGINS: set<string> := {
    "http_request", "http_request_post", "sql_request", "mysql_request", "postgresql_request",
    "cosmosdb_sql_request", "azure_digital_twins_query_request"
  }

  datatype Code =
    | CrossClusterCode | ExternalDataCode | ExternalPluginCode | UnscopedSearchCode | WildcardTableCode
    | SetStatementCode
    | NotTabularCode | ParseErrorCode | ManagementCommandCode

  /** One reason to refuse a query; `subject` is the name its message quotes. */
  datatype Problem = Problem(code: Code, subject: string, position: Option<Position>)

  // ------------------------------------------------------------------ problems of an analysis

  /** The recorded fact behind a problem, when it is one the analysis shows. */
  function Reason(p: Problem): Option<Fact> {
    if p.position.Some? then None
    else
      match p.code
      case CrossClusterCode => if p.subject == "" then Some(CrossCluster) else None
      case ExternalDataCode => if p.subject == "" then Some(ExternalData) else None
      case ExternalPluginCode => if p.subject in EXTERNAL_PLUGINS then Some(Plugin(p.subject)) else None
      case UnscopedSearchCode => if p.subject == "" then Some(UnscopedSearch) else None
      case WildcardTableCode => Some(Pattern(p.subject))
      case SetStatementCode => Some(SetOption(p.subject))
      case _ => None
  }

  predicate IsRefused(f: Fact) {
    f.CrossCluster? || f.ExternalData? || f.UnscopedSearch? || f.Pattern? || f.SetOption?
        || (f.Plugin? && f.name in EXTERNAL_PLUGINS)
  }

  /** Problems and refused facts correspond one to one. */
  function ProblemOf(f: Fact): (p: Problem)
    requires IsRefused(f)
    ensures Reason(p) == Some(f)
    ensures forall q :: Reason(q) == Some(f) ==> q == p
  {
    match f
    case CrossCluster => Problem(CrossClusterCode, "", None)
    case ExternalData => Problem(ExternalDataCode, "", None)
    case UnscopedSearch => Problem(UnscopedSearchCode, "", None)
    case Pattern(n) => Problem(WildcardTableCode, n, None)
    case SetOption(n) => Problem(SetStatementCode, n, None)
    case Plugin(n) => Problem(ExternalPluginCode, n, None)
  }

  /** The order in which the checks run. */
  function Rank(c: Code): nat {
    match c
    case CrossClusterCode => 0
    case ExternalDataCode => 1
    case ExternalPluginCode => 2
    case UnscopedSearchCode => 3
    case WildcardTableCode => 4
    case SetStatementCode => 5
    case _ => 6
  }

  /** Listed in the order of the checks, none twice. */
  predicate InOrder(ps: seq<Problem>) {
    && (forall i, j :: 0 <= i < j < |ps| ==> Rank(ps[i].code) <= Rank(ps[j].code))
    && (forall i, j :: 0 <= i < j < |ps| ==> ps[i] != ps[j])
  }

  predicate UpTo(ps: seq<Problem>, rank: nat) {
    InOrder(ps) && forall p :: p in ps ==> Rank(p.code) <= rank
  }

  lemma Extended(ps: seq<Problem>, p: Problem)
    requires UpTo(ps, Rank(p.code)) && p !in ps
    ensures UpTo(ps + [p], Rank(p.code))
    ensures forall q :: q in ps + [p] <==> q in ps || q == p
  {
  }

  /** One problem for each name, in some order. */
  method AddNamed(ps: seq<Problem>, code: Code, names: set<string>) returns (out: seq<Problem>)
    requires UpTo(ps, Rank(code)) && forall p :: p in ps ==> p.code != code
    ensures UpTo(out, Rank(code))
    ensures forall p :: p in out <==> p in ps || (p.code == code && p.subject in names && p.position.None?)
  {
    out := ps;
    var left := names;
    while left != {}
      invariant left <= names && UpTo(out, Rank(code))
      invariant forall p :: p in out <==> p in ps || (p.code == code && p.subject in names - left && p.position.None?)
    {
      var n :| n in left;
      Extended(out, Problem(code, n, None));
      out := out + [Problem(code, n, None)];
      left := left - {n};
    }
  }

  /** The problems of the checks up to `rank`, in order. */
  ghost predicate Lists(out: seq<Problem>, a: Analysis, rank: nat)
    reads a
  {
    UpTo(out, rank) && forall p :: p in out <==> Reason(p).Some? && a.Has(Reason(p).value) && Rank(p.code) <= rank
  }

  /** A check whose problem names nothing. */
  method CheckFlag(before: seq<Problem>, a: Analysis, f: Fact, flag: bool) returns (out: seq<Problem>)
    requires (f.CrossCluster? || f.ExternalData? || f.UnscopedSearch?) && flag == a.Has(f)
    requires if f.CrossCluster? then before == [] else Lists(before, a, Rank(ProblemOf(f).code) - 1)
    ensures Lists(out, a, Rank(ProblemOf(f).code))
  {
    out := before;
    if flag {
      Extended(out, ProblemOf(f));
      out := out + [ProblemOf(f)];
    }
  }

  /** The names a check goes through. */
  function Named(a: Analysis, code: Code): (names: set<string>)
    requires code.ExternalPluginCode? || code.WildcardTableCode? || code.SetStatementCode?
    reads a
    ensures forall p: Problem :: p.code == code && p.position.None?
              ==> (p.subject in names <==> Reason(p).Some? && a.Has(Reason(p).value))
  {
    match code
    case ExternalPluginCode => set p | p in a.plugins && p in EXTERNAL_PLUGINS
    case WildcardTableCode => a.tablePatterns
    case SetStatementCode => a.setOptions
  }

  lemma NamedListed(before: seq<Problem>, after: seq<Problem>, a: Analysis, code: Code)
    requires code.ExternalPluginCode? || code.WildcardTableCode? || code.SetStatementCode?
    requires Lists(before, a, Rank(code) - 1) && UpTo(after, Rank(code))
    requires forall p :: p in after
               <==> p in before || (p.code == code && p.subject in Named(a, code) && p.position.None?)
    ensures Lists(after, a, Rank(code))
  {
    forall p ensures p in after <==> Reason(p).Some? && a.Has(Reason(p).value) && Rank(p.code) <= Rank(code) {
      assert Rank(p.code) == Rank(code) ==> p.code == code;
    }
  }

  method CheckNamed(before: seq<Problem>, a: Analysis, code: Code) returns (out: seq<Problem>)
    requires code.ExternalPluginCode? || code.WildcardTableCode? || code.SetStatementCode?
    requires Lists(before, a, Rank(code) - 1)
    ensures Lists(out, a, Rank(code))
  {
    out := AddNamed(before, code, Named(a, code));
    NamedListed(before, out, a, code);
  }

  /** The problems of reading outside the data in scope. */
  method CheckReach(a: Analysis) returns (out: seq<Problem>)
    ensures Lists(out, a, 2)
  {
    out := [];
    out := CheckFlag(out, a, CrossCluster, a.crossCluster);
    out := CheckFlag(out, a, ExternalData, a.externalData);
    out := CheckNamed(out, a, ExternalPluginCode);
  }

  /** What a read-only service should refuse: one problem for every refused fact, in the order of
      the checks, none twice. */
  method Check(a: Analysis) returns (out: seq<Problem>)
    ensures Lists(out, a, 5)
  {
    out := CheckReach(a);
    out := CheckFlag(out, a, UnscopedSearch, a.unscopedSearch);
    out := CheckNamed(out, a, WildcardTableCode);
    out := CheckNamed(out, a, SetStatementCode);
  }

  lemma AllListed(out: seq<Problem>, a: Analysis)
    requires Lists(out, a, 5)
    ensures forall p :: p in out <==> Reason(p).Some? && a.Has(Reason(p).value)
  {
    forall p | Reason(p).Some? && a.Has(Reason(p).value) ensures p in out {
      assert Rank(p.code) <= 5;
    }
  }

  // ------------------------------------------------------------------ a whole query

  datatype Parsed = Parsed(query: Tree) | Unparsed(at: Position)

  predicate IsLast(ts: seq<Tree>, i: int) {
    0 <= i < |ts| && !ts[i].rule.Eoi? && forall j :: i < j < |ts| ==> ts[j].rule.Eoi?
  }

  /** The last statement, the end of input aside. */
  function LastStatement(ts: seq<Tree>): (r: Option<Tree>)
    ensures r.Some? ==> exists i :: IsLast(ts, i) && ts[i] == r.value
    ensures r.None? ==> forall i :: 0 <= i < |ts| ==> ts[i].rule.Eoi?
  {
    if ts == [] then None
    else
      var n := |ts| - 1;
      if !ts[n].rule.Eoi? then assert IsLast(ts, n); Some(ts[n])
      else
        var r := LastStatement(ts[..n]);
        assert r.Some? ==> exists i :: IsLast(ts, i) && ts[i] == r.value by {
          if r.Some? {
            var i :| IsLast(ts[..n], i) && ts[..n][i] == r.value;
            assert IsLast(ts, i);
          }
        }
        r
  }

  predicate IsTabular(last: Option<Tree>) {
    last.Some? && last.value.rule.PipeExpr?
  }

  /** The last child that is not the end of input is a pipe expression. */
  ghost predicate EndsWithPipe(query: Tree) {
    exists i :: IsLast(query.kids, i) && query.kids[i].rule.PipeExpr?
  }

  lemma LastIsPipe(query: Tree)
    ensures IsTabular(LastStatement(query.kids)) <==> EndsWithPipe(query)
  {
    var last := LastStatement(query.kids);
    if last.Some? {
      var i :| IsLast(query.kids, i) && query.kids[i] == last.value;
      assert forall j :: IsLast(query.kids, j) ==> j == i;
    }
  }

  /** A parsed query may run: nothing in it is refused and its rows can be bounded. */
  predicate MayRun(query: Tree) {
    IsTabular(LastStatement(query.kids)) && forall f :: f in Analyze(query) ==> !IsRefused(f)
  }

  /** What is reported for a parsed query. */
  predicate IsReported(p: Problem, query: Tree) {
    if p == Problem(NotTabularCode, "", None) then !IsTabular(LastStatement(query.kids))
    else Reason(p).Some? && Reason(p).value in Analyze(query)
  }

  /** A plugin that asks a service outside. */
  predicate IsExternal(plugin: string) {
    || plugin == "http_request" || plugin == "http_request_post"
    || plugin == "sql_request" || plugin == "mysql_request" || plugin == "postgresql_request"
    || plugin == "cosmosdb_sql_request" || plugin == "azure_digital_twins_query_request"
  }

  /** Each code is reported for its own fact, with the name that fact has, and in this order. */
  lemma ReportedByCode(query: Tree, n: string)
    ensures IsReported(Problem(CrossClusterCode, "", None), query) <==> CrossCluster in Analyze(query)
    ensures IsReported(Problem(ExternalDataCode, "", None), query) <==> ExternalData in Analyze(query)
    ensures IsReported(Problem(ExternalPluginCode, n, None), query) <==> IsExternal(n) && Plugin(n) in Analyze(query)
    ensures IsReported(Problem(UnscopedSearchCode, "", None), query) <==> UnscopedSearch in Analyze(query)
    ensures IsReported(Problem(WildcardTableCode, n, None), query) <==> Pattern(n) in Analyze(query)
    ensures IsReported(Problem(SetStatementCode, n, None), query) <==> SetOption(n) in Analyze(query)
    ensures Rank(CrossClusterCode) < Rank(ExternalDataCode) < Rank(ExternalPluginCode) < Rank(UnscopedSearchCode)
            < Rank(WildcardTableCode) < Rank(SetStatementCode) < Rank(NotTabularCode)
  {
  }

  lemma NoProblemMayRun(out: seq<Problem>, query: Tree)
    requires forall p :: p in out <==> IsReported(p, query)
    ensures out == [] <==> MayRun(query)
  {
    if out != [] {
      assert IsReported(out[0], query);
    } else {
      assert !IsReported(Problem(NotTabularCode, "", None), query);
      forall f | f in Analyze(query) ensures !IsRefused(f) {
        if IsRefused(f) { assert IsReported(ProblemOf(f), query); }
      }
    }
  }

  method CheckQuery(text: string, parsed: Parsed) returns (r: Result<Analysis, seq<Problem>>)
    ensures FindsDot(text) ==>
              r.Err? && |r.error| == 1 && r.error[0] == Problem(ManagementCommandCode, "", r.error[0].position)
              && r.error[0].position.Some? && IsLeadingDot(text, r.error[0].position, Lines)
    ensures !FindsDot(text) && parsed.Unparsed? ==>
              r == Err([Problem(if exists k :: StandsAt(text, k, parsed.at) && OpensStatement(text, k) then
                  ManagementCommandCode else ParseErrorCode, "", Some(parsed.at))])
    ensures !FindsDot(text) && parsed.Parsed? && MayRun(parsed.query) ==>
              r.Ok? && fresh(r.value) && forall f :: r.value.Has(f) <==> f in Analyze(parsed.query)
    ensures !FindsDot(text) && parsed.Parsed? && !MayRun(parsed.query) ==>
              r.Err? && InOrder(r.error) && forall p :: p in r.error <==> IsReported(p, parsed.query)
    ensures !FindsDot(text) && parsed.Parsed? ==>
              (!EndsWithPipe(parsed.query) <==> r.Err? && Problem(NotTabularCode, "", None) in r.error)
  {
    var dot := LeadingDot(text);
    if dot.Some? { return Err([Problem(ManagementCommandCode, "", dot)]); }
    match parsed {
      case Unparsed(at) =>
        var opens := DotStatementAt(text, at);
        return Err([Problem(if opens then ManagementCommandCode else ParseErrorCode, "", Some(at))]);
      case Parsed(query) =>
        var tabular := IsTabular(LastStatement(query.kids));
        LastIsPipe(query);
        var a := AnalyzeQuery(query);
        var out := Check(a);
        AllListed(out, a);
        if !tabular {
          out := out + [Problem(NotTabularCode, "", None)];
        }
        NoProblemMayRun(out, query);
        if out == [] { return Ok(a); }
        assert out[0] in out;
        return Err(out);
    }
  }

  // ------------------------------------------------------------------ what is refused, by the tree

  /** A call of `name` in a postfix chain. */
  predicate Calls(t: Tree, name: string) {
    t.rule.Postfix? && exists i :: 0 <= i < |t.kids| && CalledAt(t, i) == Some(name)
  }

  /** The nodes a read-only query must not have. */
  predicate Forbidden(t: Tree) {
    || t.rule == QueryOp(ExternalDataOp)
    || ((t.rule == QueryOp(FindOp) || t.rule == QueryOp(SearchOp)) && !HasKid(t, KwIn))
    || t.rule.TablePattern?
    || (t.rule.SetStmt? && HasKid(t, OptionName))
    || (t.rule.PluginCall? && t.kids != [] && IsExternal(Text.ToLower(NameText(t.kids[0]))))
    || Calls(t, "cluster") || Calls(t, "database") || Calls(t, "external_table")
  }

  lemma CallRecorded(t: Tree, i: nat, f: Fact)
    requires IsRefused(f)
    ensures f in CallFacts(t, i) <==>
              || (f == CrossCluster && (CalledAt(t, i) == Some("cluster") || CalledAt(t, i) == Some("database")))
              || (f == ExternalData && CalledAt(t, i) == Some("external_table"))
  {
    assert |"cluster"| == 7 && |"database"| == 8 && |"external_table"| == 14 && |"table"| == 5;
  }

  lemma CallsRecorded(t: Tree, f: Fact)
    requires t.rule.Postfix? && IsRefused(f)
    ensures f in Own(t, Plain) <==>
              || (f == CrossCluster && (Calls(t, "cluster") || Calls(t, "database")))
              || (f == ExternalData && Calls(t, "external_table"))
  {
    assert f in Own(t, Plain) <==> exists i :: 0 <= i < |t.kids| && f in CallFacts(t, i);
    forall i | 0 <= i < |t.kids|
      ensures f in CallFacts(t, i) <==>
              || (f == CrossCluster && (CalledAt(t, i) == Some("cluster") || CalledAt(t, i) == Some("database")))
              || (f == ExternalData && CalledAt(t, i) == Some("external_table"))
    {
      CallRecorded(t, i, f);
    }
  }

  lemma OperatorRecorded(t: Tree, f: Fact)
    requires t.rule.QueryOp? && IsRefused(f)
    ensures f in Own(t, Plain) <==>
              || (f == ExternalData && t.rule.op.ExternalDataOp?)
              || (f == UnscopedSearch && (t.rule.op.FindOp? || t.rule.op.SearchOp?) && !HasKid(t, KwIn))
  {
  }

  /** A node carries a refused fact exactly when it is forbidden. */
  lemma ForbiddenCarries(t: Tree)
    ensures Forbidden(t) <==> exists f :: IsRefused(f) && f in Own(t, Plain)
  {
    match t.rule {
      case Postfix =>
        CallsRecorded(t, CrossCluster);
        CallsRecorded(t, ExternalData);
        if f :| IsRefused(f) && f in Own(t, Plain) { CallsRecorded(t, f); }
      case QueryOp(op) =>
        OperatorRecorded(t, ExternalData);
        OperatorRecorded(t, UnscopedSearch);
        if f :| IsRefused(f) && f in Own(t, Plain) { OperatorRecorded(t, f); }
      case TablePattern => assert Pattern(t.text) in Own(t, Plain);
      case SetStmt =>
        var o := FirstKid(t.kids, OptionName);
        if o.Some? { assert SetOption(o.value.text) in Own(t, Plain); }
      case PluginCall =>
        if t.kids != [] { assert Plugin(Text.ToLower(NameText(t.kids[0]))) in Own(t, Plain); }
      case _ =>
    }
  }

  /** The node a statement shows at a path is forbidden. */
  predicate ShowsForbidden(t: Tree, path: seq<nat>) {
    Visible(t, path).Some? && Forbidden(Visible(t, path).value)
  }

  lemma RefusedIsShown(query: Tree, f: Fact)
    requires forall i :: 0 <= i < |query.kids| ==> Layered(query.kids[i])
    requires f in Analyze(query) && IsRefused(f)
    ensures exists i, path :: 0 <= i < |query.kids| && ShowsForbidden(query.kids[i], path)
  {
    AllMember(query.kids, true, f);
    var i :| 0 <= i < |query.kids| && f in Facts(query.kids[i], true);
    PlainFacts(query.kids[i], true, f);
    var path :| Shows(query.kids[i], path, f);
    ForbiddenCarries(Visible(query.kids[i], path).value);
    assert ShowsForbidden(query.kids[i], path);
  }

  lemma ShownIsRefused(query: Tree, i: nat, path: seq<nat>)
    requires i < |query.kids| && Layered(query.kids[i]) && ShowsForbidden(query.kids[i], path)
    ensures exists f :: f in Analyze(query) && IsRefused(f)
  {
    var t := query.kids[i];
    ForbiddenCarries(Visible(t, path).value);
    var f :| IsRefused(f) && f in Own(Visible(t, path).value, Plain);
    assert Shows(t, path, f);
    PlainFacts(t, true, f);
    assert f in FactsOfAll(query.kids, true) by { AllMember(query.kids, true, f); }
    assert f in Analyze(query);
  }

  /** A query that parses may run exactly when it ends with a pipe expression and no statement shows
      a forbidden node, whatever stands around it. */
  lemma MayRunExactly(query: Tree)
    requires forall i :: 0 <= i < |query.kids| ==> Layered(query.kids[i])
    ensures MayRun(query) <==>
              && EndsWithPipe(query)
              && forall i, path :: 0 <= i < |query.kids| ==> !ShowsForbidden(query.kids[i], path)
  {
    LastIsPipe(query);
    forall f | f in Analyze(query) && IsRefused(f)
      ensures exists i, path :: 0 <= i < |query.kids| && ShowsForbidden(query.kids[i], path)
    {
      RefusedIsShown(query, f);
    }
    forall i, path | 0 <= i < |query.kids| && ShowsForbidden(query.kids[i], path)
      ensures exists f :: f in Analyze(query) && IsRefused(f)
    {
      ShownIsRefused(query, i, path);
    }
  }
}
