/** Hunting queries from the caller to the answer: `validate` of src/hunting/mod.rs and
    `hunting_run` of src/server.rs. */
module Hunting {
  import opened Wrappers
  import Text
  import opened KqlTree
  import opened KqlWalk
  import opened KqlAnalysis
  import opened KqlLeadingDot
  import opened KqlPolicy
  import KqlText
  import opened KqlBounded
  import opened HuntingRows

  const DEFAULT_MAX_ROWS: nat := 1000
  const MAX_MAX_ROWS: nat := 99999
  const MAX_QUERY_BYTES: nat := 128000
  const DEFAULT_TIMESPAN := "P30D"

  // ------------------------------------------------------------------ validation

  datatype Finding = Refused(problem: Problem) | NoTable | UnknownTable(table: string) | Ungrouped

  predicate IsError(f: Finding) {
    f.Refused? || f.NoTable?
  }

  predicate IsValid(findings: seq<Finding>) {
    forall f :: f in findings ==> !IsError(f)
  }

  /** What is found in a parsed query, against a catalog of known tables. */
  predicate IsFound(f: Finding, query: Tree, catalog: set<string>) {
    match f
    case Refused(p) => IsReported(p, query)
    case NoTable => forall g :: g in Analyze(query) ==> !g.Table?
    case UnknownTable(t) => Table(t) in Analyze(query) && t !in catalog
    case Ungrouped => UngroupedAggregate in Analyze(query)
  }

  predicate ReadsTable(query: Tree) {
    exists f :: f in Analyze(query) && f.Table?
  }

  function Wrapped(ps: seq<Problem>): (fs: seq<Finding>)
    ensures |fs| == |ps| && forall i :: 0 <= i < |ps| ==> fs[i] == Refused(ps[i])
    ensures forall f :: f in fs <==> f.Refused? && f.problem in ps
  {
    if ps == [] then [] else [Refused(ps[0])] + Wrapped(ps[1..])
  }

  /** A query that parses and whose text is not taken for a management command. */
  ghost predicate Parses(text: string, parsed: Parsed) {
    parsed.Parsed? && !FindsDot(text)
  }

  /** One warning for each table the catalog does not list. */
  method UnknownTables(tables: set<string>, catalog: set<string>) returns (findings: seq<Finding>)
    ensures forall f :: f in findings <==> f.UnknownTable? && f.table in tables && f.table !in catalog
  {
    findings := [];
    var left := tables;
    while left != {}
      invariant left <= tables
      invariant forall f :: f in findings <==> f.UnknownTable? && f.table in tables - left && f.table !in catalog
    {
      var t :| t in left;
      if t !in catalog { findings := findings + [UnknownTable(t)]; }
      left := left - {t};
    }
  }

  /** What is found beside the policy's problems. */
  method Remarks(a: Analysis, query: Tree, catalog: set<string>) returns (findings: seq<Finding>)
    requires forall f :: a.Has(f) <==> f in Analyze(query)
    ensures forall f :: f in findings <==> !f.Refused? && IsFound(f, query, catalog)
  {
    assert forall n :: a.Has(Table(n)) <==> n in a.tables;
    assert a.Has(UngroupedAggregate) <==> a.ungroupedAggregate;
    var unknown := UnknownTables(a.tables, catalog);
    findings := (if a.tables == {} then [NoTable] else []) + unknown
        + (if a.ungroupedAggregate then [Ungrouped] else []);
    if n :| n in a.tables { assert Table(n) in Analyze(query); }
    forall g | g in Analyze(query) && g.Table? ensures g.name in a.tables { assert a.Has(g); }
  }

  lemma ValidExactly(findings: seq<Finding>, query: Tree, catalog: set<string>)
    requires forall f :: f in findings <==> IsFound(f, query, catalog)
    ensures IsValid(findings) <==> MayRun(query) && ReadsTable(query)
  {
    assert IsFound(NoTable, query, catalog) <==> !ReadsTable(query);
    if !IsTabular(LastStatement(query.kids)) {
      assert IsFound(Refused(Problem(NotTabularCode, "", None)), query, catalog);
    }
    forall f | f in Analyze(query) && IsRefused(f) ensures !IsValid(findings) {
      assert IsFound(Refused(ProblemOf(f)), query, catalog);
    }
  }

  /** What the policy says of a query: its analysis when it parses, refused or not. */
  method Judge(text: string, parsed: Parsed) returns (analysis: Option<Analysis>, problems: seq<Problem>)
    ensures analysis.Some? <==> Parses(text, parsed)
    ensures analysis.Some? ==> forall f :: analysis.value.Has(f) <==> f in Analyze(parsed.query)
    ensures analysis.Some? ==> forall p :: p in problems <==> IsReported(p, parsed.query)
    ensures analysis.None? ==> |problems| == 1 && problems[0].code in {ManagementCommandCode, ParseErrorCode}
  {
    var r := CheckQuery(text, parsed);
    if r.Ok? {
      NoProblemMayRun([], parsed.query);
      return Some(r.value), [];
    }
    problems := r.error;
    assert !Parses(text, parsed) ==>
        problems[0] in problems && problems[0].code in {ManagementCommandCode, ParseErrorCode};
    if forall p :: p in problems ==> p.code != ParseErrorCode && p.code != ManagementCommandCode {
      var a := AnalyzeQuery(parsed.query);
      analysis := Some(a);
    } else {
      analysis := None;
    }
  }

  method Validate(text: string, parsed: Parsed, catalog: set<string>)
    returns (analysis: Option<Analysis>, findings: seq<Finding>)
    ensures analysis.Some? <==> Parses(text, parsed)
    ensures analysis.Some? ==> forall f :: analysis.value.Has(f) <==> f in Analyze(parsed.query)
    ensures Parses(text, parsed) ==> forall f :: f in findings <==> IsFound(f, parsed.query, catalog)
    ensures !Parses(text, parsed) ==>
              |findings| == 1 && findings[0].Refused?
                  && findings[0].problem.code in {ManagementCommandCode, ParseErrorCode}
    ensures IsValid(findings) <==> Parses(text, parsed) && MayRun(parsed.query) && ReadsTable(parsed.query)
  {
    var problems;
    analysis, problems := Judge(text, parsed);
    findings := Wrapped(problems);
    if analysis.Some? {
      var more := Remarks(analysis.value, parsed.query, catalog);
      findings := findings + more;
      ValidExactly(findings, parsed.query, catalog);
    } else {
      assert IsError(findings[0]);
    }
  }

  // ------------------------------------------------------------------ a run

  datatype RunError = MissingQuery | EmptyQuery | QueryTooLong | MaxRowsOutOfRange

  datatype RunResult =
    | Invalid(error: RunError)
    | NotRun(findings: seq<Finding>)
    | Failed(reason: Value)
    | Answered(answer: Compacted, warnings: seq<Finding>)

  datatype Request = Request(query: string, timespan: string)

  /** What is wrong with a run's parameters, if anything. */
  function ParameterError(query: Option<string>, maxRows: Option<nat>): Option<RunError> {
    if query.None? then Some(MissingQuery)
    else if Text.Trim(query.value) == "" then Some(EmptyQuery)
    else if Text.ByteLength(query.value) > MAX_QUERY_BYTES then Some(QueryTooLong)
    else if maxRows.Some? && !(1 <= maxRows.value <= MAX_MAX_ROWS) then Some(MaxRowsOutOfRange)
    else None
  }

  function Limit(maxRows: Option<nat>): nat {
    if maxRows.Some? then maxRows.value else DEFAULT_MAX_ROWS
  }

  /** A tree and the spans of its nodes in the text. */
  predicate Spans(t: Tree, p: KqlText.Pair, text: string)
    decreases t
  {
    && p.start <= p.end <= |text| && t.text == text[p.start..p.end]
    && |t.kids| == |p.inner| && forall i :: 0 <= i < |t.kids| ==> Spans(t.kids[i], p.inner[i], text)
  }

  /** One parse, seen as a tree and as the spans of its last statement, after which only blanks,
      comments and a `;` come. */
  predicate SameParse(text: string, parsed: Parsed, last: Option<KqlText.Pair>) {
    && (last.Some? <==> parsed.Parsed? && LastStatement(parsed.query.kids).Some?)
    && (last.Some? ==>
          && KqlText.Nested(last.value) && last.value.end <= |text| && KqlBounded.EndsText(last.value, text)
          && Spans(LastStatement(parsed.query.kids).value, last.value, text))
  }

  /** The query of a run may be sent. */
  ghost predicate Runs(query: Option<string>, maxRows: Option<nat>, parsed: Parsed) {
    && ParameterError(query, maxRows).None?
    && Parses(query.value, parsed) && MayRun(parsed.query) && ReadsTable(parsed.query)
  }

  function SpanOf(timespan: Option<string>): string {
    if timespan.Some? && Text.Trim(timespan.value) != "" then Text.Trim(timespan.value) else DEFAULT_TIMESPAN
  }

  /** The request for a query: its code and one bound above the limit, and a timespan. */
  ghost predicate IsRequest(sent: Request, text: string, last: Option<KqlText.Pair>, limit: nat,
        timespan: Option<string>)
    requires last.Some? ==> KqlText.Nested(last.value) && last.value.end <= |text|
  {
    && var end := KqlBounded.BodyEnd(text, last);
    && end <= |text|
    && sent.query == text[..end] + KqlBounded.TAKE + Text.Decimal(limit + 1)
    && sent.timespan == SpanOf(timespan)
  }

  method BuildRequest(text: string, last: Option<KqlText.Pair>, limit: nat, timespan: Option<string>)
    returns (request: Request)
    requires last.Some? ==> KqlText.Nested(last.value) && last.value.end <= |text|
    ensures IsRequest(request, text, last, limit, timespan)
  {
    var bounded := KqlBounded.Bounded(text, last, limit);
    request := Request(bounded, SpanOf(timespan));
  }

  /** What a run sends and returns, when the service will say `answer` should the query be sent. */
  ghost predicate IsRun(query: Option<string>, timespan: Option<string>, maxRows: Option<nat>, catalog: set<string>,
          parsed: Parsed, last: Option<KqlText.Pair>, answer: Result<Value, Value>, sent: Option<Request>, r: RunResult)
    requires query.Some? ==> SameParse(query.value, parsed, last)
  {
    && (sent.Some? <==> Runs(query, maxRows, parsed))
    && (sent.Some? ==> last.Some? && IsRequest(sent.value, query.value, last, Limit(maxRows), timespan))
    && (sent.None? ==>
          if ParameterError(query, maxRows).Some? then r == Invalid(ParameterError(query, maxRows).value)
              else r.NotRun?)
    && (sent.Some? && answer.Err? ==> r == Failed(answer.error))
    && (sent.Some? && answer.Ok? ==>
          && r.Answered? && IsCompact(r.answer, answer.value, Limit(maxRows))
          && forall f :: f in r.warnings <==> IsFound(f, parsed.query, catalog))
  }

  method HuntingRun(query: Option<string>, timespan: Option<string>, maxRows: Option<nat>, catalog: set<string>,
          parsed: Parsed, last: Option<KqlText.Pair>, answer: Result<Value, Value>)
    returns (sent: Option<Request>, r: RunResult)
    requires query.Some? ==> SameParse(query.value, parsed, last)
    ensures IsRun(query, timespan, maxRows, catalog, parsed, last, answer, sent, r)
  {
    sent := None;
    var limit := Limit(maxRows);
    var error := ParameterError(query, maxRows);
    if error.Some? { return None, Invalid(error.value); }
    var analysis, findings := Validate(query.value, parsed, catalog);
    if !IsValid(findings) { return None, NotRun(findings); }
    var request := BuildRequest(query.value, last, limit, timespan);
    sent := Some(request);
    match answer {
      case Err(e) => r := Failed(e);
      case Ok(v) =>
        var c := Compact(v, limit);
        r := Answered(c, findings);
    }
  }

  // ------------------------------------------------------------------ end to end

  /** What the service has for each query: all its rows. */
  type Service = Reading -> seq<Value>

  /** The service answers what it is sent, read from the last leaf `leaf` on: rows of the query before
      the last `| take N`, as many as N and the service's cap allow. */
  ghost predicate Serves(service: Service, sent: string, leaf: nat, answer: Value) {
    var reading := ReadFrom(sent, leaf);
    var bound := Bound(reading.code);
    bound.Some? && Answers(answer, service(Reading(reading.verbatim, bound.value.0)), bound.value.1)
  }

  /** The service is asked for the query before the cut's `| take`, with one row more than the limit. */
  lemma {:induction false} ServedReading(service: Service, text: string, stmt: KqlText.Pair, limit: nat,
        timespan: Option<string>, sent: Request, answer: Value)
    requires KqlText.Nested(stmt) && stmt.end <= |text| && IsRequest(sent, text, Some(stmt), limit, timespan)
    ensures var leaf, tail := KqlText.LastLeafEnd(stmt.inner, stmt.start), KqlBounded.TailOf(text, stmt);
      && leaf <= |text|
      && (Serves(service, sent.query, leaf, answer) <==>
          Answers(answer, service(Reading(text[..leaf], KqlText.Code(tail[..KqlText.Cut(tail)], false))), limit + 1))
  {
    var tail := KqlBounded.TailOf(text, stmt);
    KqlBounded.BoundedReading(text, stmt, limit);
    KqlBounded.BoundIsRead(KqlText.Code(tail[..KqlText.Cut(tail)], false), limit + 1);
  }

  /** When the cut loses nothing, that is the query the caller asks. */
  lemma {:induction false} AskedIsServed(service: Service, text: string, stmt: KqlText.Pair, limit: nat,
        timespan: Option<string>, sent: Request, answer: Value)
    requires KqlText.Nested(stmt) && stmt.end <= |text| && KqlBounded.EndsText(stmt, text)
    requires IsRequest(sent, text, Some(stmt), limit, timespan)
            && !KqlText.LostAfterReturn(KqlBounded.TailOf(text, stmt))
    ensures var leaf := KqlText.LastLeafEnd(stmt.inner, stmt.start);
      Serves(service, sent.query, leaf, answer) <==> Answers(answer, service(QueryOf(text, leaf)), limit + 1)
  {
    ServedReading(service, text, stmt, limit, timespan, sent, answer);
    KqlBounded.QueryIsStatement(text, stmt);
    KqlText.NoSpaceLost(KqlBounded.TailOf(text, stmt));
    KqlText.CutKeepsCode(KqlBounded.TailOf(text, stmt));
  }

  /** A compact answer to the query asked, with one row more than the limit. */
  ghost predicate IsTrue(c: Compacted, answer: Value, full: seq<Value>, limit: nat) {
    && (c.truncated <==> |full| > limit)
    && |c.rows| == Min(|full|, limit)
    && (!c.truncated ==> multiset(Results(answer)) == multiset(full) && c.rows == Rows(c.columns, Results(answer)))
  }

  lemma CompactIsTrue(c: Compacted, answer: Value, full: seq<Value>, limit: nat)
    requires IsCompact(c, answer, limit) && Answers(answer, full, limit + 1) && limit <= MAX_MAX_ROWS
    ensures IsTrue(c, answer, full, limit)
  {
    TruncationIsExact(answer, full, limit);
    assert Results(answer)[..|Results(answer)|] == Results(answer);
  }

  lemma {:induction false} AskedIsTrue(service: Service, text: string, stmt: KqlText.Pair, limit: nat,
        timespan: Option<string>, sent: Request, answer: Value, c: Compacted)
    requires KqlText.Nested(stmt) && stmt.end <= |text| && KqlBounded.EndsText(stmt, text)
    requires IsRequest(sent, text, Some(stmt), limit, timespan) && limit <= MAX_MAX_ROWS
    requires Serves(service, sent.query, KqlText.LastLeafEnd(stmt.inner, stmt.start), answer)
    requires !KqlText.LostAfterReturn(KqlBounded.TailOf(text, stmt)) && IsCompact(c, answer, limit)
    ensures IsTrue(c, answer, service(QueryOf(text, KqlText.LastLeafEnd(stmt.inner, stmt.start))), limit)
  {
    AskedIsServed(service, text, stmt, limit, timespan, sent, answer);
    CompactIsTrue(c, answer, service(QueryOf(text, KqlText.LastLeafEnd(stmt.inner, stmt.start))), limit);
  }

  /** What a run that sent a query and got its answer has done. */
  lemma {:induction false} RunIsAnswered(query: Option<string>, timespan: Option<string>, maxRows: Option<nat>,
        catalog: set<string>, parsed: Parsed, last: Option<KqlText.Pair>, answer: Value, sent: Option<Request>,
        r: RunResult)
    requires query.Some? ==> SameParse(query.value, parsed, last)
    requires IsRun(query, timespan, maxRows, catalog, parsed, last, Ok(answer), sent, r) && sent.Some?
    ensures query.Some? && last.Some? && KqlText.Nested(last.value) && last.value.end <= |query.value|
    ensures KqlBounded.EndsText(last.value, query.value) && Limit(maxRows) <= MAX_MAX_ROWS
    ensures IsRequest(sent.value, query.value, last, Limit(maxRows), timespan)
    ensures r.Answered? && IsCompact(r.answer, answer, Limit(maxRows))
  {
  }

  /** End to end. When the query the caller asks has the rows `full`, a run returns as many of them as
      the caller's limit allows, says that the answer is cut exactly when there are more, and leaves
      none out when it is not, as long as the cut loses no code behind a carriage return. */
  lemma {:induction false} RunTellsTruncation(service: Service, query: Option<string>, timespan: Option<string>,
        maxRows: Option<nat>, catalog: set<string>, parsed: Parsed, last: Option<KqlText.Pair>, answer: Value,
        sent: Option<Request>, r: RunResult)
    requires query.Some? ==> SameParse(query.value, parsed, last)
    requires IsRun(query, timespan, maxRows, catalog, parsed, last, Ok(answer), sent, r) && sent.Some?
    requires Serves(service, sent.value.query, KqlText.LastLeafEnd(last.value.inner, last.value.start), answer)
    requires !KqlText.LostAfterReturn(KqlBounded.TailOf(query.value, last.value))
    ensures r.Answered?
    ensures IsTrue(r.answer, answer,
            service(QueryOf(query.value, KqlText.LastLeafEnd(last.value.inner, last.value.start))), Limit(maxRows))
  {
    RunIsAnswered(query, timespan, maxRows, catalog, parsed, last, answer, sent, r);
    AskedIsTrue(service, query.value, last.value, Limit(maxRows), timespan, sent.value, answer, r.answer);
  }

  /** The caller's own number: of `maxRows` rows, or a thousand if none are asked for. */
  predicate IsLimit(m: nat, maxRows: Option<nat>) {
    maxRows == Some(m) || (maxRows.None? && m == 1000)
  }

  /** The code of a text ends with a bound of so many rows. */
  ghost predicate EndsInTake(text: string, leaf: nat, n: nat) {
    exists kept :: ReadFrom(text, leaf).code == kept + ("|take" + Text.Decimal(n))
  }

  lemma {:induction false} RequestIsBounded(text: string, stmt: KqlText.Pair, limit: nat, timespan: Option<string>,
        sent: Request)
    requires KqlText.Nested(stmt) && stmt.end <= |text| && IsRequest(sent, text, Some(stmt), limit, timespan)
    ensures EndsInTake(sent.query, KqlText.LastLeafEnd(stmt.inner, stmt.start), limit + 1)
  {
    var tail := KqlBounded.TailOf(text, stmt);
    var kept := KqlText.Code(tail[..KqlText.Cut(tail)], false);
    KqlBounded.BoundedReading(text, stmt, limit);
    KqlBounded.Associative(kept, "|take", Text.Decimal(limit + 1));
  }

  /** The request says the caller's number and span: one row more than that number is asked for, and
      the span is the caller's without white space around it, or thirty days. */
  lemma {:induction false} RequestSaysCallers(query: Option<string>, timespan: Option<string>, maxRows: Option<nat>,
        catalog: set<string>, parsed: Parsed, last: Option<KqlText.Pair>, answer: Result<Value, Value>,
        sent: Option<Request>, r: RunResult, m: nat)
    requires query.Some? ==> SameParse(query.value, parsed, last)
    requires IsRun(query, timespan, maxRows, catalog, parsed, last, answer, sent, r) && sent.Some?
    requires IsLimit(m, maxRows)
    ensures EndsInTake(sent.value.query, KqlText.LastLeafEnd(last.value.inner, last.value.start), m + 1)
    ensures sent.value.timespan ==
            if timespan.None? || Text.Trim(timespan.value) == "" then "P30D" else Text.Trim(timespan.value)
    ensures r.Answered? ==> r.answer.maxRows == m
  {
    RequestIsBounded(query.value, last.value, m, timespan, sent.value);
  }

  /** A run is refused for its parameters exactly when it has no query, a blank one, one of more than
      128000 bytes, or a number of rows outside 1 to 99999. */
  lemma {:induction false} ParametersExactly(query: Option<string>, timespan: Option<string>, maxRows: Option<nat>,
        catalog: set<string>, parsed: Parsed, last: Option<KqlText.Pair>, answer: Result<Value, Value>,
        sent: Option<Request>, r: RunResult)
    requires query.Some? ==> SameParse(query.value, parsed, last)
    requires IsRun(query, timespan, maxRows, catalog, parsed, last, answer, sent, r)
    ensures r.Invalid? <==>
              || query.None? || Text.Trim(query.value) == "" || Text.ByteLength(query.value) > 128000
              || (maxRows.Some? && (maxRows.value == 0 || maxRows.value >= 100000))
    ensures r.Invalid? ==> sent.None?
    ensures r == Invalid(MissingQuery) <==> query.None?
    ensures r == Invalid(EmptyQuery) <==> query.Some? && Text.Trim(query.value) == ""
    ensures r == Invalid(QueryTooLong) <==>
              query.Some? && Text.Trim(query.value) != "" && Text.ByteLength(query.value) > 128000
  {
  }

  /** End to end, in the caller's number. */
  lemma {:induction false} RunKeepsCallersLimit(service: Service, query: Option<string>, timespan: Option<string>,
        maxRows: Option<nat>, catalog: set<string>, parsed: Parsed, last: Option<KqlText.Pair>, answer: Value,
        sent: Option<Request>, r: RunResult, m: nat)
    requires query.Some? ==> SameParse(query.value, parsed, last)
    requires IsRun(query, timespan, maxRows, catalog, parsed, last, Ok(answer), sent, r) && sent.Some?
    requires Serves(service, sent.value.query, KqlText.LastLeafEnd(last.value.inner, last.value.start), answer)
    requires !KqlText.LostAfterReturn(KqlBounded.TailOf(query.value, last.value)) && IsLimit(m, maxRows)
    ensures var full := service(QueryOf(query.value, KqlText.LastLeafEnd(last.value.inner, last.value.start)));
      r.Answered? && |r.answer.rows| == (if |full| < m then |full| else m) && (r.answer.truncated <==> |full| > m)
  {
    RunTellsTruncation(service, query, timespan, maxRows, catalog, parsed, last, answer, sent, r);
  }

  /** Whatever the service has, a compact answer to what was sent tells whether the query the caller
      asks has more rows than the limit. */
  ghost predicate TellsTruth(text: string, stmt: KqlText.Pair, limit: nat, sent: Request) {
    var leaf := KqlText.LastLeafEnd(stmt.inner, stmt.start);
    forall service: Service, answer ::
      Serves(service, sent.query, leaf, answer) ==>
        (|Results(answer)| > limit <==> |service(QueryOf(text, leaf))| > limit)
  }

  const NO_ROWS := HuntingRows.Object(map["results" := HuntingRows.Array([])])

  lemma {:induction false} LostIsNotTold(text: string, stmt: KqlText.Pair, limit: nat, timespan: Option<string>,
        sent: Request)
    requires KqlText.Nested(stmt) && stmt.end <= |text| && IsRequest(sent, text, Some(stmt), limit, timespan)
    requires var leaf, tail := KqlText.LastLeafEnd(stmt.inner, stmt.start), KqlBounded.TailOf(text, stmt);
      leaf <= |text| && QueryOf(text, leaf) != Reading(text[..leaf], KqlText.Code(tail[..KqlText.Cut(tail)], false))
    ensures !TellsTruth(text, stmt, limit, sent)
  {
    var leaf := KqlText.LastLeafEnd(stmt.inner, stmt.start);
    var asked := QueryOf(text, leaf);
    var service: Service := r => if r == asked then seq(limit + 1, _ => HuntingRows.Null) else [];
    ServedReading(service, text, stmt, limit, timespan, sent, NO_ROWS);
    assert Results(NO_ROWS) == [];
    assert Serves(service, sent.query, leaf, NO_ROWS);
    assert |service(asked)| > limit;
  }

  /** The condition is exact: when the cut loses code, some service has rows for the query asked that
      no answer to the query sent betrays. */
  lemma {:induction false} RunTellsTruthExactly(text: string, stmt: KqlText.Pair, limit: nat, timespan: Option<string>,
        sent: Request)
    requires KqlText.Nested(stmt) && stmt.end <= |text| && KqlBounded.EndsText(stmt, text)
    requires limit <= MAX_MAX_ROWS && IsRequest(sent, text, Some(stmt), limit, timespan)
    ensures TellsTruth(text, stmt, limit, sent) <==> !KqlText.LostAfterReturn(KqlBounded.TailOf(text, stmt))
  {
    var leaf, tail := KqlText.LastLeafEnd(stmt.inner, stmt.start), KqlBounded.TailOf(text, stmt);
    KqlBounded.QueryIsStatement(text, stmt);
    KqlText.NoSpaceLost(tail);
    KqlText.CutKeepsCode(tail);
    if !KqlText.LostAfterReturn(tail) {
      forall service: Service, answer | Serves(service, sent.query, leaf, answer)
        ensures |Results(answer)| > limit <==> |service(QueryOf(text, leaf))| > limit
      {
        AskedIsServed(service, text, stmt, limit, timespan, sent, answer);
        TruncationIsExact(answer, service(QueryOf(text, leaf)), limit);
      }
    } else {
      LostIsNotTold(text, stmt, limit, timespan, sent);
    }
  }
}
