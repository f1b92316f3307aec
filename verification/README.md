# Microsoft Defender MCP server: a verified model

A Dafny model of the parts of the server whose guarantees only show over whole runs or whole inputs,
and proofs of those guarantees. `dafny verify dfyconfig.toml` checks all of it.

- **Delegated token protocol** (`TokenProtocol`, `TokenSafety`, `TokenTheorems`, `TokenManager`).
  Any number of `get_token` calls share a token cache, a rotating refresh token, a consent map, a
  write-once re-authentication flag and one refresh lock. Every read and write of shared state is a
  step of its own, and so are the identity provider's answers, the clock and the request that meets a
  401 claims challenge. Invariants hold in every interleaving from every successful start-up. The
  classes of `TokenManager` are the source's objects; their methods say which steps they take.
- **Mutation pipeline and audit log** (`MutationPipeline`, `MutationTheorems`, `MutationHandlers`,
  `MutationServer`). Concurrent attempts over one append-only log, in which any append may fail. What
  the log can look like and when upstream is called are theorems about all runs; the handlers reject
  what the source's reject, where they reject it, and the classes of `MutationServer` run handler,
  wrapper and the seven stages as the source does.
- **KQL** (`KqlTree`, `KqlWalk`, `KqlOccurrence`, `KqlSources`, `KqlAnalysis`, `KqlQueries`, `KqlPolicy`,
  `KqlText`, `KqlBounded`, `KqlPosition`, `KqlLeadingDot`, `KqlOpeningDot`). The tree walk against a
  declarative "occurs in the tree", the policy against the nodes it is meant to refuse, the row bound and
  the search for management commands against a lexer for the grammar's blanks and comments, and line and
  column against byte offsets.
- **Hunting runs** (`HuntingRows`, `Hunting`): from the caller's parameters over the query that is sent
  to the compact answer, and exactly when that answer tells the truth about the query asked. The
  service is any function from queries, as the grammar reads them, to rows.
- **Schema cache** (`SchemaCache`) against the history of its calls.
- **Device-code polling** (`DeviceCode`), section 3.5 of RFC 8628.
- **Indicators and the sweep query** (`IndicatorTokens`, `IndicatorFangs`, `Indicators`, `IndicatorTheorems`,
  `IndicatorForms`, `SweepQuery`): what is pasted, refanged, sorted and swept for, against fanging, joined
  labels and a table-by-table reading of the query.
- **Ids in paths** (`Utf8`, `PathSegments`): RFC 3629 and RFC 3986.

`Wrappers` and `Text` hold what these share.

Conventions. What lies outside the program is a parameter: the clock, answers of the identity
provider and of upstream, the outcome of a confirmation or an append, the parse of a query (as a tree
and as the last statement's spans, tied to each other) and the reading of an IP address. A ghost field
`world` mirrors an object as a state of the step relation, so the theorems about runs are theorems about
the object. What an operation reads off a table or a constant (error codes, tools, limits, lists of names)
is stated once more in the numbers and names themselves, by a member that does not use that table.

## Where the code and its documentation differ

The model follows the code. Each of these is stated as a lemma, with the exact condition where the
code does meet the promise.

- Splitting the tail of a statement at line feeds misses that the grammar ends a comment at a carriage
  return too: a closing bracket behind `// c\r` is cut off (`KqlText.LoneReturnLosesCode`, and in a whole
  query `KqlBounded.LostParenthesis`). The tail keeps its code exactly when no dropped comment is followed
  by code after a carriage return and no white space is dropped that the grammar does not skip
  (`KqlText.CutKeepsCode`); a text that parses has no such white space there (`KqlText.NoSpaceLost`). So
  the query sent is the one asked with one bound exactly when no code is lost behind a carriage return
  (`KqlBounded.BoundedKeepsCode`), and exactly then an answer to it tells whether the caller's query has
  more rows than the limit (`Hunting.RunTellsTruthExactly`). Without lone carriage returns that always
  holds (`KqlText.LineFeedsLoseNothing`).
- The search for a leading dot differs from the grammar in two ways. It ends comments at line feeds only:
  in `// c\rT\n.x` it takes a column of `T` for a management command
  (`KqlLeadingDot.DotFoundBehindReturn`), and in `// c\r.show` it misses the command
  (`KqlLeadingDot.DotMissedBehindReturn`). And it skips all Unicode white space, where the grammar skips
  six characters: an em space before `.show` is no blank to the grammar, and the text is refused as a
  command (`KqlLeadingDot.DotFoundBehindSpace`). The search finds what the grammar reads first exactly when
  the grammar's first character, should it be such white space or stand behind a carriage return in a
  leading comment's line, is no dot and has no dot after what hides it
  (`KqlLeadingDot.LeadingDotExactly`). Without a lone carriage return in the leading comments, and unless
  the grammar starts with such white space, that always holds (`KqlLeadingDot.LeadingDotIsRead`).
- A dot opens a statement to the code when a `;` stands before it, white space aside. A comment or a byte
  order mark between the two hides the `;`, and the command is reported as a parse error
  (`KqlOpeningDot.CommentHidesSemicolon`, `KqlOpeningDot.MarkHidesSemicolon`); a comment that ends with `;`
  shows one where no statement has ended (`KqlOpeningDot.CommentShowsSemicolon`).
  `KqlOpeningDot.OpeningDotExactly` says for each direction exactly when the two disagree; with nothing but
  white space of the grammar's after the code they agree (`KqlOpeningDot.PlainDotIsSeen`).
- A parenthesized name without operators, however many the parentheses, is not among the tables as an
  operand of `union`, though the documentation lists union operands (`KqlQueries.UnionMissesTable`). It is
  exactly when operators follow inside some of the parentheses (`KqlSources.ParenthesizedOperand`).
- Nor is the table that the body of a function bound by `let` names without operators, though let
  values are documented as tables (`KqlQueries.FunctionMissesTable`). A function has exactly the tables
  that its statements have when they are walked like any other value
  (`KqlSources.FunctionNamesTable`): of a pipe over a name the name if operators follow, and what the
  operators read (`KqlSources.FunctionBodyStatement`). A let value that is a pipe itself is read as
  documented (`KqlSources.LetValueNamesTable`).
- The analysis as a whole is not monotone: a `let` added after a use takes the table away
  (`KqlQueries.TablesAreNotMonotone`). Everything but the tables bound that way is
  (`KqlAnalysis.MoreStatementsMoreFacts`).
- `refang` slices by bytes and stops the program when the seventh or eighth byte of a token ends inside
  a character (`IndicatorTokens.RefangStopsExactly`); ASCII tokens are safe.
- A device-code server that asks for an interval of zero can keep the loop going within one instant
  (`DeviceCode.EndsExactly`).
- The comment at src/auth/session.rs:215 promises no network call once the flag is set. One grant may
  still begin, and one at most (`TokenTheorems.ReauthIsFinal`), exactly when the call that holds the lock
  is past its second reading of the flag and does not find its consent lost
  (`TokenTheorems.GrantMayFollowExactly`). A claims challenge brings that about in a run from start-up
  (`TokenTheorems.OneGrantMayFollow`); a refused grant that sets the flag never does
  (`TokenTheorems.NoGrantAfterRefusal`).
- An `offboard` call while offboarding is off is an unknown action to its handler: it is a protocol error
  that leaves no record. With device response enabled a call makes an attempt if and only if offboarding
  is enabled (`MutationServer.DefenderServer.CallTool`), so no call of a
  tool that has a route is ever recorded as category disabled
  (`MutationHandlers.KnownLeavesNoCategoryRecord`), and the pipeline's own check for offboarding decides
  nothing.

## Model

| member | source | states |
|---|---|---|
| TokenManager.DelegatedSession.SetReauth | src/auth/session.rs:239-241 | The first reason recorded is kept for good. |
| TokenManager.DelegatedSession.SetConsent | src/auth/session.rs:249-251 | Changes the consent of one audience and nothing else. |
| TokenManager.DelegatedSession.ConsentState | src/auth/session.rs:244-246 | The recorded consent of an audience, if there is one. |
| TokenManager.TokenManager.FromEnv | src/auth.rs:64-91 | App mode starts with nothing cached, in the state the protocol's runs start from. |
| TokenManager.TokenManager.FromSession | src/auth.rs:203-211 | The manager after sign-in holds exactly the session and cache sign-in left. |
| TokenManager.TokenManager.CheckSession | src/auth.rs:219-232 | Fails with the recorded reason, else with missing consent, else not at all; app mode never fails here. |
| TokenManager.TokenManager.ReadCache | src/auth.rs:235-242 | A cached token is used exactly while it is more than 60 seconds from its expiry. |
| TokenManager.TokenManager.Enter | src/auth.rs:215-245 | `get_token` up to the lock, whoever holds it: a run of that call's own steps that changes nothing of the session and returns the flag's reason, else missing consent, else the valid cached token, or queues for the lock. |
| TokenManager.TokenManager.Acquire | src/auth.rs:244-298 | Once the lock is got, whatever happened before: session and cache are read again with the same outcomes, which free the lock; otherwise exactly one grant with the current refresh token begins, and the call waits for its answer. |
| TokenManager.TokenManager.Refresh | src/auth.rs:245-364 | From the lock on, undisturbed: a run of the call's own steps that frees the lock and returns what session and cache say, or else what the provider's answer is worth, with its token or verdict kept. |
| TokenManager.TokenManager.Redeem | src/auth.rs:299-364 | The provider's answer, whatever happened while the grant was under way: a token kept and returned, or the failure that the error code means kept and returned, at the given time, with the lock free. |
| TokenManager.TokenManager.Accept | src/auth.rs:301-314 | A success keeps the rotated refresh token if one came and caches the token under the audience with its expiry counted from now; nothing else changes. |
| TokenManager.TokenManager.Reject | src/auth.rs:315-360 | A refusal fails with the failure its error code means, and sets the flag, or loses this audience's consent, or changes nothing; in app mode it is a failed refresh. |
| TokenManager.TokenManager.SetReauth | src/auth.rs:436-440 | A claims challenge, whoever holds the lock, is the protocol's challenge step, without effect in app mode. |
| TokenManager.SignInUser | src/auth.rs:94-212 | Sign-in makes one grant per audience with the token the one before left; it fails where the specification fails, with the same error, and otherwise leaves a manager in the specified state. |
| TokenSafety.InvKept | src/auth.rs:215-364 | Every step of every interleaving keeps mutual exclusion, the grant chain, the stored tokens, freshness, returned tokens and consent. |
| TokenSafety.LockKept | src/auth.rs:244-245 | Exactly the holder of the refresh lock stands inside the refresh section. |
| TokenSafety.ChainKept | src/auth.rs:281-305 | Each grant presents the refresh token the one before left, and begins once that one was answered. |
| TokenSafety.StoredKept | src/auth.rs:306-313 | Every cached token was issued by a recorded grant for that audience. |
| TokenSafety.FreshKept | src/auth.rs:262-269 | A token still valid is never replaced, and no grant begins while one is cached. |
| TokenSafety.ConsentKept | src/auth.rs:248-260 | No call past its second reading of the consent map works for an audience that lost consent. |
| TokenSafety.ReadsOnly | src/auth.rs:219-269 | Until it sends a grant, a call changes nothing another call can see but the lock. |
| TokenSafety.WriteEffect | src/auth.rs:300-361 | The steps that write change consent and the flag only for a refusal, exactly as its verdict says. |
| TokenTheorems.SignInSucceeds | src/auth.rs:129-189 | Start-up succeeds if and only if each audience is granted or lacks consent, and one is granted. |
| TokenTheorems.ConsentMatchesCache | src/auth.rs:126-189 | After start-up an audience is granted with expiry e exactly when a token of expiry e is cached for it, and one is granted. |
| TokenTheorems.StartedInv | src/auth.rs:94-212 | Every successful start-up establishes the invariants. |
| TokenTheorems.RunKeepsInv | src/auth.rs:215-364 | Every run keeps the invariants. |
| TokenTheorems.GrantsFormOneChain | src/auth.rs:281-305 | In every reachable state the grants, start-up's included, form one chain of refresh tokens and at most one is in flight, the last. |
| TokenTheorems.ReturnedTokensWereIssued | src/auth.rs:234-313 | Every token a call returns was granted for that call's audience. |
| TokenTheorems.RunGrowsGrants | src/auth.rs:291-298 | Over a run recorded grants are only completed, and new ones begin at the present. |
| TokenTheorems.SingleFlightHolds | src/auth.rs:41-45 | While a cached token is more than 60 seconds from its expiry no grant for its audience begins, however many calls queue, and it stays cached. |
| TokenTheorems.ReauthIsFinal | src/auth/session.rs:239-241 | Once the flag is set its reason never changes, and at most one grant begins afterwards, none unless the lock's holder may still send. |
| TokenTheorems.GrantMayFollowExactly | src/auth.rs:246-298 | Once the flag is set a grant can still begin, in some run, if and only if the lock's holder is past its second reading of the flag and does not find its consent lost. |
| TokenTheorems.HolderSends | src/auth.rs:246-298 | From every such place some run sends the grant. |
| TokenTheorems.NoGrantAfterRefusal | src/auth.rs:315-356 | When a refused grant sets the flag, no grant begins afterwards. |
| TokenTheorems.OneGrantMayFollow | src/client.rs:231-241 | It happens: some run from start-up, with a challenge for any reason, ends with the flag set where a grant can still begin. |
| TokenTheorems.LateCallsAreRefused | src/auth.rs:219-251 | A call that arrives, or still queues, once the flag is set can only return its reason. |
| TokenTheorems.TransientFailureIsHarmless | src/auth.rs:315-360 | A failed grant leaves session, cache and refresh token untouched and only fails its call, as a failed refresh, if and only if the mode is app mode or the failure is neither `invalid_grant` nor `interaction_required`. |
| TokenTheorems.RefusalMeansItsCode | src/auth.rs:315-360 | Code by code: a refused delegated grant ends its call with session expired exactly for `invalid_grant` with 700082, 70043 or 50173, with MFA required for 50076 or 50079, with consent missing for 65001, revoked for any other, interaction required for `interaction_required`, and a failed refresh otherwise; the flag keeps that reason unless it has one, and the consent is lost exactly for 65001. |
| TokenTheorems.LostConsentIsFinal | src/auth.rs:248-260 | A lost consent stays lost, and no grant for that audience begins any more. |
| TokenTheorems.LosingConsentIsLocal | src/auth.rs:331-342 | Consent is lost only by a refusal with code 65001 for that audience, which changes nothing else. |
| TokenTheorems.NeverStuck | src/auth.rs:244-245 | While a call is unfinished some call can step: the lock never deadlocks. |
| TokenTheorems.OwnStepsRunOut | src/auth.rs:215-364 | Each of a call's own steps brings it nearer its end and moves no other call. |
| MutationTheorems.InvKept | src/server.rs:3849-4056 | Every step of every interleaving keeps what each attempt's records and upstream requests may be. |
| MutationTheorems.OthersUntouched | src/server.rs:4059-4065 | A step of one attempt changes nothing about another: place, acceptance, records and requests stay, and so does its invariant. |
| MutationTheorems.LogGrammar | src/server.rs:3858-4055 | The log of one attempt is empty, one final record, one intent, or an intent and an outcome that agree on all but phase and result. |
| MutationTheorems.UpstreamOnceAfterIntent | src/server.rs:3999-4055 | A finished attempt was sent upstream once if its intent was recorded and never otherwise, answers accordingly, and its outcome is upstream's answer. |
| MutationTheorems.NothingSentUnrecorded | src/server.rs:3924-4000 | Whatever was sent passed every check, was accepted by a human where one had to be asked, and has its intent in the log already. |
| MutationTheorems.SentIsAllowed | src/server.rs:3875-3969 | Whatever was sent is of a tool whose own category is enabled, and offboarding's for `offboard`, is valid, has a reason of ten characters, and was accepted by a human when asking is on and the tool is live response, device response or indicators. |
| MutationTheorems.ApprovalIsHuman | src/server.rs:3924-3969 | An attempt is approved only by a human who accepts while being asked. |
| MutationTheorems.TriageIsNotAsked | src/cli.rs:149-151 | No triage attempt waits for a human or is approved, and all its records say that confirmation does not apply. |
| MutationTheorems.OthersAreConfirmed | src/server.rs:3924-3969 | Every intent and outcome of the other tools says that a human accepted, or that asking is off. |
| MutationTheorems.OutcomeTellsAnswer | src/server.rs:4020-4055 | A recorded outcome tells upstream's answer: status and identifiers, the HTTP error, or the transport error. |
| MutationTheorems.FinalNamesTheStage | src/server.rs:3861-3997 | A final record names the first stage that stopped the attempt. |
| MutationTheorems.ReadOnlySendsNothing | src/server.rs:3875-3880 | Under read-only nothing is sent and every record is a read-only rejection. |
| MutationTheorems.SinkPresentAtIntent | src/main.rs:79-93 | In a server built by the start-up code no attempt reaches the intent stage without a sink. |
| MutationTheorems.SinkExactly | src/main.rs:79-93 | A server has a sink exactly when a category is enabled or a log path was given. |
| MutationTheorems.FlagsRespectReadOnly | src/cli.rs:179-217 | Each tool is enabled exactly by its own flag without read-only, offboarding by its own and device response's, and some category exactly when some tool is. |
| MutationTheorems.FinishedIsFinal | src/audit.rs:298-312 | The log only grows; a finished attempt's records, answer and requests never change again. |
| MutationTheorems.EnabledIsNotRefused | src/server.rs:3881-3896 | No record of an enabled action says that its category is disabled. |
| MutationTheorems.OwnStepsRunOut | src/server.rs:3849-4056 | Every step of an attempt brings it nearer its end. |
| MutationHandlers.KnownExactly | src/server.rs:804-849 | The actions of each tool, one by one; `offboard` only with offboarding enabled. |
| MutationHandlers.DeviceFields | src/server.rs:5527-5640 | For each device action what it needs and what it rejects, so many fields and no more. |
| MutationHandlers.UpdateFields | src/server.rs:6190-6330 | For each update what it needs, rejects and counts for a change. |
| MutationHandlers.CommentFields | src/server.rs:6205-6300 | A comment needs its text and what it is about, and rejects what updates change. |
| MutationHandlers.IndicatorFields | src/server.rs:5857-5960 | A submission needs an indicator's parts, a deletion one id or several and none of the parts. |
| MutationHandlers.ResponseFields | src/server.rs:5093-5462 | For each live response action what it needs and what it rejects. |
| MutationHandlers.ReasonIsTheCallers | src/server.rs:5052-5076 | The reason a request carries is the caller's justification, comment or, for an upload, description. |
| MutationHandlers.RequestCarriesDetails | src/server.rs:5093-5462 | With every field in order a request carries the targets, parameters and first invalid value that validation found. |
| MutationHandlers.RequestCarriesRejection | src/server.rs:4071-4100 | Otherwise it carries nothing but what is wrong: an unused field, else no change, else a missing field. |
| MutationHandlers.KnownLeavesNoCategoryRecord | src/server.rs:5475-5500 | In every reachable state, no attempt made by a known action of a routed tool is recorded as category disabled. |
| MutationServer.AuditSink.Append | src/audit.rs:298-312 | An append adds one record at the end, or fails and changes nothing. |
| MutationServer.DefenderServer.WriteRecord | src/server.rs:4059-4065 | A record is written if there is a sink and it accepts it; the attempt moves on as the protocol says for either case. |
| MutationServer.DefenderServer.Confirm | src/server.rs:3924-3969 | A destructive tool asks a human when asking is on, and goes on only with acceptance. |
| MutationServer.DefenderServer.Submit | src/server.rs:3971-4055 | Intent, one upstream request, outcome; without a recorded intent no request. |
| MutationServer.DefenderServer.ExecuteMutation | src/server.rs:3849-4056 | One attempt under a fresh id, a run of that attempt's own steps to its end; never a protocol error, and answered with a disabled category exactly when it is disabled and read-only is off. |
| MutationServer.DefenderServer.RunAction | src/server.rs:5078-6345 | A handler does what it makes of the action and its fields: a protocol error with nothing attempted, or one attempt with the request it passes on. |
| MutationServer.DefenderServer.HandleCall | src/server.rs:5052-5076 | A known action makes exactly one attempt whatever fields it has, the handler's errors included; an unknown one makes none and is a protocol error. |
| MutationServer.DefenderServer.CallTool | src/server.rs:6677-6729 | A tool without a route is refused and recorded without reading its arguments; an error comes back exactly for an unknown action of a routed tool; `offboard` is attempted if and only if offboarding is enabled, and a routed tool never answers with a disabled category. |
| KqlTree.FindHead | crates/kql-parser/src/lib.rs:297-311 | The loop down single-child nodes finds the head that the tree's recursion defines. |
| KqlTree.FirstKid | crates/kql-parser/src/lib.rs:343-345 | The first child of a rule is found, exactly when there is one. |
| KqlOccurrence.SpecIsOccurrence | crates/kql-parser/src/lib.rs:329-465 | A fact is in the recursive reading exactly when a path of read children leads to a node that carries it. |
| KqlOccurrence.GrammaticalIsLayered | crates/kql-parser/src/kql.pest:35-150 | Trees of the shapes the grammar gives have expression layers, and only those, wherever the walk looks through single children. |
| KqlOccurrence.SourceSpec | crates/kql-parser/src/lib.rs:361-371 | A layered source reads as the one table it names, or as the pipe in its parentheses. |
| KqlOccurrence.WalkAgrees | crates/kql-parser/src/lib.rs:329-465 | On every layered tree the walk collects exactly what the declarative reading has. |
| KqlOccurrence.WalkIsOccurrence | crates/kql-parser/src/lib.rs:329-465 | The walk records a fact if and only if a node that carries it occurs outside names, literals and options. |
| KqlOccurrence.PlainFacts | crates/kql-parser/src/lib.rs:404-440 | Facts other than tables and column names are recorded exactly when some visible node carries them, wherever it stands. |
| KqlOccurrence.LayersMatter | crates/kql-parser/src/lib.rs:297-311 | On a tree the grammar never gives, an operator looked through as if it were a layer goes unrecorded. |
| KqlSources.ParenthesizedOperand | crates/kql-parser/src/lib.rs:378-399 | A name in any number of parentheses is always a table as a `join` or `lookup` operand, but as a `union` operand, walked as any other value, if and only if operators follow inside some of them. |
| KqlSources.LetValueNamesTable | crates/kql-parser/src/lib.rs:325-341 | The value of a `let` names its table, whether operators follow or not. |
| KqlSources.FunctionNamesTable | crates/kql-parser/src/kql.pest:24-27 | A function with any parameters and statements has a table if and only if some statement of its body has it when walked as a value. |
| KqlSources.FunctionBodyStatement | crates/kql-parser/src/lib.rs:325-341 | Where pipes over names are the statements of a function, whatever its parameters, a name is a table of it if and only if operators follow it in some statement or some operator reads it. |
| KqlSources.TableCallNamesTable | crates/kql-parser/src/lib.rs:468-498 | A call of `table` with a single string names that table. |
| KqlSources.NoStringNoTable | crates/kql-parser/src/lib.rs:468-498 | A call whose first argument has several parts names none. |
| KqlSources.QuotedSays | crates/kql-parser/src/lib.rs:258-296 | A string literal, with any prefixes, and a bracketed name say what stands between the quotes. |
| KqlSources.TripleQuotedSays | crates/kql-parser/src/lib.rs:258-274 | A literal in three backticks or tildes says what stands between those. |
| KqlSources.NameIsRecorded | crates/kql-parser/src/lib.rs:441-455 | A name in a postfix chain is recorded unless arguments follow it. |
| KqlSources.CalleeIsFunction | crates/kql-parser/src/lib.rs:441-455 | A name that is only called is recorded as a function and not as a name. |
| KqlSources.TimeLiteralExactly | crates/kql-parser/src/lib.rs:411-417 | A literal is a time exactly when it begins with `datetime`, or with `date` and a parenthesis or space, case and leading white space aside. |
| KqlAnalysis.Analysis.Record | crates/kql-parser/src/lib.rs:82-121 | Recording a fact adds that fact and no other. |
| KqlAnalysis.Analysis.RecordCalls | crates/kql-parser/src/lib.rs:468-498 | The calls of a postfix chain are recorded, no more and no less, on top of what was there. |
| KqlAnalysis.Analysis.RecordOperator | crates/kql-parser/src/lib.rs:404-440 | What an operator says of itself is recorded on top of what was there. |
| KqlAnalysis.Analysis.Walk | crates/kql-parser/src/lib.rs:329-465 | Walking from any analysis gives that analysis joined with the walk from an empty one. |
| KqlAnalysis.Analysis.WalkPipe | crates/kql-parser/src/lib.rs:357-377 | A pipe's source is a table, the inside of its parentheses or a value, and then its operators are walked. |
| KqlAnalysis.Analysis.WalkOperands | crates/kql-parser/src/lib.rs:378-399 | Operands are read as tables, patterns, calls or pipes by their form. |
| KqlAnalysis.Analysis.WalkParts | crates/kql-parser/src/lib.rs:441-455 | Every part of a postfix chain is walked but the names that are only called. |
| KqlAnalysis.AnalyzeQuery | crates/kql-parser/src/lib.rs:128-137 | The finished analysis has the facts of all statements, less the tables bound by `let`. |
| KqlAnalysis.TablesAreSourcesLessLets | crates/kql-parser/src/lib.rs:128-137 | A name is a table if and only if some statement reads it as a source and no statement, before or after, binds it. |
| KqlAnalysis.MoreStatementsMoreFacts | crates/kql-parser/src/lib.rs:128-137 | With more statements a fact stays, unless it is a table that they bind. |
| KqlAnalysis.StatementOrderIsIrrelevant | crates/kql-parser/src/lib.rs:128-137 | The analysis depends on which statements there are, not on their order or number. |
| KqlQueries.TablesAreNotMonotone | crates/kql-parser/src/lib.rs:133-135 | A statement added to a query of the grammar can take a table away: `n; let n = 1`. |
| KqlQueries.UnionMissesTable | crates/kql-parser/src/lib.rs:378-399 | In `a | union (b)`, a query of the grammar, with any number of parentheses around `b`, `b` is read as a name and is not among the tables. |
| KqlQueries.LetReadsTable | crates/kql-parser/src/kql.pest:21-22 | In `let x = n`, a query of the grammar, `n` is among the tables. |
| KqlQueries.FunctionMissesTable | crates/kql-parser/src/kql.pest:24-27 | In `let f = () { n }; f()`, a query of the grammar, `n` is read as a name and is not among the tables. |
| KqlPolicy.ProblemOf | crates/kql-parser/src/policy.rs:132-174 | Refused facts and problems correspond one to one. |
| KqlPolicy.AddNamed | crates/kql-parser/src/policy.rs:146-153 | One problem for each name, after the earlier ones and never twice. |
| KqlPolicy.Check | crates/kql-parser/src/policy.rs:132-174 | One problem for every refused fact and no other, in the order of the checks, none twice. |
| KqlPolicy.LastStatement | crates/kql-parser/src/lib.rs:140-145 | The last statement is the last child that is not the end of input, if there is one. |
| KqlPolicy.CheckQuery | crates/kql-parser/src/policy.rs:178-207 | A leading dot or a text that does not parse gives its one problem with its position; a parsed query is accepted with its analysis exactly when it may run, refused with exactly its problems otherwise, and called not tabular exactly when its last child before the end of input is no pipe expression. |
| KqlPolicy.NoProblemMayRun | crates/kql-parser/src/policy.rs:196-206 | Nothing is reported if and only if the query may run. |
| KqlPolicy.ReportedByCode | crates/kql-parser/src/policy.rs:132-174 | Each code is reported exactly for its own fact, plugins for the seven external ones by name, in the order of the checks. |
| KqlPolicy.ForbiddenCarries | crates/kql-parser/src/policy.rs:132-174 | A node carries a refused fact exactly when it is one of the forbidden forms. |
| KqlPolicy.MayRunExactly | crates/kql-parser/src/policy.rs:132-207 | A parsed query may run if and only if it ends with a pipe expression and no statement shows `externaldata`, `external_table`, `cluster`, `database`, a listed plugin, an unscoped `search` or `find`, a wildcard table or a `set`. |
| KqlText.CodeConcat | crates/kql-parser/src/kql.pest:12-13 | The code of two texts is that of the first, then of the second read from where the first leaves off, if no `//` is cut in two. |
| KqlText.BlankIs | crates/kql-parser/src/kql.pest:12 | The grammar's six blanks, by number. |
| KqlText.LastLeafOfStatement | crates/kql-parser/src/policy.rs:234-241 | The last leaf's end lies inside the statement and is the greatest end of a leaf, or the start without leaves. |
| KqlText.StatementEnd | crates/kql-parser/src/policy.rs:232-252 | The loop over lines computes the cut after the last leaf. |
| KqlText.CutOutsideComment | crates/kql-parser/src/policy.rs:244-250 | The cut is never inside a comment and cuts no `//` in two. |
| KqlText.DroppedCode | crates/kql-parser/src/policy.rs:244-250 | The dropped tail has code if and only if a dropped comment ends at a carriage return with code behind it or white space is dropped that the grammar does not skip. |
| KqlText.CutKeepsCode | crates/kql-parser/src/policy.rs:228-252 | The kept tail has the code of the whole tail if and only if no such comment and no such white space is dropped. |
| KqlText.NoSpaceLost | crates/kql-parser/src/policy.rs:244-250 | Where what the grammar reads after the last leaf has no white space, as in every text that parses, no such white space is dropped. |
| KqlText.CommentHides | crates/kql-parser/src/kql.pest:13 | Within one line a comment lets code through exactly when a carriage return ends it early. |
| KqlText.LineFeedsLoseNothing | crates/kql-parser/src/policy.rs:244-250 | Without lone carriage returns nothing is ever lost. |
| KqlText.LoneReturnLosesCode | crates/kql-parser/src/policy.rs:244-250 | A tail whose closing parenthesis is lost behind a carriage return. |
| KqlBounded.Bounded | crates/kql-parser/src/policy.rs:219-226 | The bounded query is the text up to its end and `take` of one row more than asked. |
| KqlBounded.TrailerIsCut | crates/kql-parser/src/policy.rs:219-226 | Of a text that does not parse exactly the semicolons and white space at its end are left off. |
| KqlBounded.TakeCode | crates/kql-parser/src/policy.rs:225 | What is appended reads as one `take` with that number. |
| KqlBounded.BoundIsRead | crates/kql-parser/src/policy.rs:225 | The number of the last `take` is read back from the code, whatever comes before. |
| KqlBounded.BoundedReading | crates/kql-parser/src/policy.rs:219-252 | The bounded query reads as the text up to its last leaf as it stood, the code that the cut keeps, and one `take`, lost code or not. |
| KqlBounded.BoundedKeepsCode | crates/kql-parser/src/policy.rs:215-226 | The whole bounded query reads as the query the text asks, literals untouched and without its final `;`, followed by one `take` of one row more than the limit, if and only if the cut loses no code behind a carriage return. |
| KqlBounded.LostParenthesis | crates/kql-parser/src/policy.rs:232-252 | A whole query, `(T // c\r)`, whose body ends before its closing parenthesis. |
| KqlPosition.PositionsGrow | crates/kql-parser/src/policy.rs:86-91 | Positions grow along the text, so no two characters share one. |
| KqlPosition.ByteOffset | crates/kql-parser/src/policy.rs:291-303 | An offset is found exactly when a character other than a line feed stands at the line and column, and is that character's offset in bytes. |
| KqlPosition.OffsetInvertsPosition | crates/kql-parser/src/policy.rs:291-303 | The offset of a character's line and column is its own, multi-byte characters included; a line feed's place has none. |
| KqlOpeningDot.DotStatementAt | crates/kql-parser/src/policy.rs:285-288 | Holds exactly when a dot stands at the position and, white space aside, a semicolon before it. |
| KqlOpeningDot.SeenAgainstRead | crates/kql-parser/src/policy.rs:284-288 | On every text before a dot: the code ends with `;` unseen exactly when a comment or byte order mark that does not end with one follows it; a `;` is seen that does not end the code exactly when a comment, or foreign white space after it, shows it. |
| KqlOpeningDot.OpeningDotExactly | crates/kql-parser/src/policy.rs:284-288 | The same for a dot in a whole text, read by the grammar from the end of any token before it that no `;` ends. |
| KqlOpeningDot.PlainDotIsSeen | crates/kql-parser/src/policy.rs:284-288 | With nothing but white space between code and dot, and none foreign to the grammar, a dot opens a statement to the code exactly when it does to the grammar. |
| KqlOpeningDot.CommentHidesSemicolon | crates/kql-parser/src/policy.rs:284-288 | `T; // c` and `.show` on the next line: the statement has ended and the code does not see it. |
| KqlOpeningDot.CommentShowsSemicolon | crates/kql-parser/src/policy.rs:284-288 | `T | count // a;` and `.show` on the next line: no statement has ended and the code sees one. |
| KqlOpeningDot.MarkHidesSemicolon | crates/kql-parser/src/policy.rs:284-288 | A byte order mark between `;` and `.show` hides the one from the other. |
| KqlLeadingDot.LeadingDot | crates/kql-parser/src/policy.rs:266-282 | A position is found exactly when the first character outside Unicode white space, byte order marks and comments is a dot, where a comment runs to the line feed, and it is that dot's. |
| KqlLeadingDot.FirstIsCode | crates/kql-parser/src/kql.pest:12-13 | The first character outside the grammar's six blanks and its comments begins the text's code; a text without one has no code. |
| KqlLeadingDot.HiddenIsSkipped | crates/kql-parser/src/policy.rs:266-282 | The hidden first characters are exactly those the grammar reads and the loop skips. |
| KqlLeadingDot.LeadingDotExactly | crates/kql-parser/src/policy.rs:266-282 | What is found is the dot the grammar reads first, at its position, if and only if no hidden first character, white space foreign to the grammar or behind a carriage return on a comment's line, is a dot or has a dot after what hides it. |
| KqlLeadingDot.LeadingDotIsRead | crates/kql-parser/src/policy.rs:266-282 | Without a lone carriage return in the leading comments, and unless foreign white space comes first, a dot is found exactly when the grammar reads one first. |
| KqlLeadingDot.DotFoundBehindReturn | crates/kql-parser/src/policy.rs:266-282 | A text the grammar reads as `T.x` in which a leading dot is found. |
| KqlLeadingDot.DotMissedBehindReturn | crates/kql-parser/src/policy.rs:266-282 | A text whose code begins with a dot that is not found. |
| KqlLeadingDot.DotFoundBehindSpace | crates/kql-parser/src/policy.rs:266-282 | Before `.show` any white space foreign to the grammar, an em space for one: the dot is found, and the grammar reads none first. |
| Hunting.Judge | src/hunting/mod.rs:129-139 | The analysis is there exactly when the text parses and starts with no dot, refused or not. |
| Hunting.Remarks | src/hunting/mod.rs:140-169 | The error for no table and one warning per unknown table or ungrouped aggregate, each exactly when it applies. |
| Hunting.Validate | src/hunting/mod.rs:129-172 | A query is valid if and only if it parses, may run and reads a table. |
| Hunting.HuntingRun | src/server.rs:1988-2035 | A request is sent exactly for good parameters and a valid query, with the bounded query and timespan; otherwise the answer says why, and an answer comes back compact with its warnings. |
| Hunting.ParametersExactly | src/server.rs:1989-1997 | A run is refused for its parameters exactly without a query, with a blank one, with one over 128000 bytes, or with a number of rows outside 1 to 99999, and says which. |
| Hunting.RequestSaysCallers | src/server.rs:2007-2017 | With `maxRows` m, or 1000 for none, the code sent ends in `take` and m+1, the answer says m, and the timespan is the caller's trimmed one or `P30D`. |
| Hunting.BuildRequest | src/server.rs:2007-2017 | The request is the text up to its body's end with one bound above the limit, and the trimmed timespan or the default. |
| Hunting.AskedIsServed | src/server.rs:1988-2033 | When the cut loses nothing, what the service is asked is the caller's query, for one row more than the limit. |
| Hunting.RunTellsTruncation | src/server.rs:1988-2033 | End to end: for every service, a run whose request loses no code returns as many rows as the caller's query has up to the limit, says truncated exactly when there are more, and leaves none out when not. |
| Hunting.RunKeepsCallersLimit | src/server.rs:1991-2022 | The same in the caller's number m, or 1000 for none: as many rows as there are up to m, truncated exactly when there are more than m. |
| Hunting.RunTellsTruthExactly | src/server.rs:1988-2033 | For every service an answer to the request tells whether the caller's query has more rows than the limit, if and only if the cut loses no code behind a carriage return. |
| HuntingRows.SchemaColumnsExactly | src/hunting/mod.rs:180-193 | A column is taken from the schema exactly when some entry describes it: by a textual `name`, or `Name` where there is no `name` at all. |
| HuntingRows.KeyColumns | src/hunting/mod.rs:194-198 | Without a schema, the first row's keys, each once. |
| HuntingRows.Compact | src/hunting/mod.rs:175-240 | Columns, the first rows up to the limit as cells, and whether more came. |
| HuntingRows.RowRebuilds | src/hunting/mod.rs:203-211 | Each object row is rebuilt from its cells over the columns, absent fields as null, even when a column is named twice. |
| HuntingRows.FirstRowRebuildsWhole | src/hunting/mod.rs:194-211 | Without a schema the first row is rebuilt whole. |
| HuntingRows.AnswerIsRead | src/hunting/mod.rs:175-199 | Rows are read from `results`, columns from `schema`, their names and types from `name` and `type` or, where these are missing, from `Name` and `Type`; a `name` that is no text, null included, makes no column. |
| HuntingRows.CellsAre | src/hunting/mod.rs:203-211 | A cell is the row's value under its column's name, or null. |
| HuntingRows.TruncationIsExact | src/hunting/mod.rs:23-25 | Below the service's cap one row more than the limit tells a cut answer from a complete one, and a complete one has every row. |
| HuntingRows.TruncationExactly | src/hunting/mod.rs:23-25 | The largest `maxRows` is right: truncation is told for every result if and only if the limit is below the cap. |
| SchemaCache.Cache.Get | src/hunting/mod.rs:303-308 | A reader gets what the history of puts owes it. |
| SchemaCache.Cache.Store | src/hunting/mod.rs:310-314 | A put joins the history, and only entries stale when it sweeps are dropped. |
| SchemaCache.OwedExactly | src/hunting/mod.rs:297-315 | A value is owed exactly when the last put for the table stored it less than 3600000 ms earlier. |
| DeviceCode.RunDeviceCodeFlow | src/auth/signin.rs:611-716 | The loop is a run of the flow: each poll waits the first interval and five seconds per earlier `slow_down` from the answer before it, begins only if the deadline had not passed, and the last answer, the deadline or an interruption decides how it ends. |
| DeviceCode.RunInSeconds | src/auth/signin.rs:641-675 | In every run each poll waits the response's seconds, five for none, and five more per earlier `slow_down`, and its wait begins within the response's lifetime, 900 seconds for none. |
| DeviceCode.ExpiresInSeconds | src/auth/signin.rs:643-669 | The loop gives up for time exactly when it is back at its top with that lifetime over. |
| DeviceCode.GoesOnExactly | src/auth/signin.rs:704-709 | Only `authorization_pending` and `slow_down` keep it going. |
| DeviceCode.EndsAsAnswered | src/auth/signin.rs:682-715 | How it ends by the last answer: signed in exactly with both tokens, and each error code as its own error. |
| DeviceCode.IntervalsGrow | src/auth/signin.rs:706-709 | Each `slow_down` lengthens every later wait by five seconds, for good. |
| DeviceCode.PollsTakeTime | src/auth/signin.rs:666-675 | The time a run takes at least, by its polls and the `slow_down` answers before each. |
| DeviceCode.OnePollMayBeLate | src/auth/signin.rs:667-669 | All polls but the last begin and are answered before the deadline. |
| DeviceCode.PollsFitLifetime | src/auth/signin.rs:642-715 | How many polls a lifetime allows, whatever the answers. |
| DeviceCode.SlowedPollsFitLifetime | src/auth/signin.rs:642-715 | If n polls were all answered `slow_down`, (n-1) intervals and 5 s times (n-1)(n-2)/2 fit into the lifetime. |
| DeviceCode.PositiveIntervalEnds | src/auth/signin.rs:666-715 | With a positive interval as many rounds as the lifetime has milliseconds end every run. |
| DeviceCode.ZeroIntervalNeverEnds | src/auth/signin.rs:642 | With an interval of zero any number of polls fits into one instant. |
| DeviceCode.EndsExactly | src/auth/signin.rs:642-715 | The loop is sure to end if and only if the interval is positive or there is no lifetime. |
| IndicatorTokens.TokensAreTrimmed | src/prompts.rs:272-276 | Tokens are not empty and not wrapped in quotes or brackets. |
| IndicatorTokens.SeparatorParts | src/prompts.rs:272-276 | White space, a comma or a semicolon parts the tokens before it from those after it. |
| IndicatorTokens.OneToken | src/prompts.rs:272-276 | Without one of these a text is one token, less the quotes, angle brackets and parentheses around it, or none. |
| IndicatorTokens.RefangStopsExactly | src/prompts.rs:321-333 | Refanging stops the program if and only if the seventh or eighth byte of the undotted token ends inside a character. |
| IndicatorTokens.ReschemeExactly | src/prompts.rs:327-331 | A scheme is replaced whatever its case and the rest of the token kept, or nothing changes. |
| IndicatorTokens.AsciiIsRefanged | src/prompts.rs:321-333 | An ASCII token never stops it. |
| IndicatorTokens.AccentStopsRefang | src/prompts.rs:328 | One token that stops it. |
| IndicatorFangs.UndottedIs | src/prompts.rs:321-326 | However dots, colons and `://` of a text without brackets are put in brackets, taking the brackets off gives the text back. |
| IndicatorFangs.PartFanged | src/prompts.rs:321-326 | Any of them can be: what stands around it stays. |
| IndicatorFangs.RefangUndoesFanging | src/prompts.rs:320-333 | Refanging a fanged text gives it back, with `hxxps://` and `hxxp://` in any case made `https://` and `http://`. |
| Indicators.HostIsClean | src/prompts.rs:336-349 | A URL's host is lower-case and has nothing of path, query, fragment or user left in it. |
| Indicators.PushUnique | src/prompts.rs:264-268 | A value joins a list unless it is there. |
| Indicators.Indicators.Sort | src/prompts.rs:295-315 | One token changes the lists by its primary entry and, for a URL, its host. |
| Indicators.SortAll | src/prompts.rs:284-318 | The first token that fails is the whole answer; otherwise the lists are those of every token's entries in order. |
| Indicators.Classify | src/prompts.rs:271-318 | Indicators are sorted exactly when there are some, 500 at most, and each is admitted; the first that is not is the answer. |
| IndicatorForms.AdmittedExactly | src/prompts.rs:286-293 | A token is an invalid value exactly over 2048 bytes or with a control character, a backtick or a backslash. |
| IndicatorForms.HashExactly | src/prompts.rs:295-300 | Hashes are exactly 64, 40 or 32 hexadecimal digits. |
| IndicatorForms.DomainExactly | src/prompts.rs:351-381 | A domain is exactly two labels or more joined by dots, 253 characters at most, each label 1 to 63 letters, digits and inner hyphens, the last of letters and none of 28 file extensions. |
| IndicatorForms.HostReadsBack | src/prompts.rs:336-349 | A URL's host is read back in lower case whatever user, port, path, query or fragment surrounds it. |
| IndicatorForms.BracketedHostReadsBack | src/prompts.rs:336-349 | And so is a host in brackets. |
| IndicatorForms.NoSchemeNoHost | src/prompts.rs:337-340 | Only what begins with `https://` or `http://`, in any case, has a host. |
| IndicatorForms.FangedDomainIsListed | src/prompts.rs:271-318 | A domain that is no address, however it is fanged in what the user pastes, is listed as that domain in lower case whenever the tokens are sorted. |
| Indicators.FirstOccurrencesInOrder | src/prompts.rs:264-268 | Deduplication keeps every value once, in the order of first occurrences. |
| Indicators.ListsByKind | src/prompts.rs:253-268 | Each list is the deduplication of the entries of its kind. |
| IndicatorTheorems.ListsAreWhatTokensYield | src/prompts.rs:271-318 | A value is in a list if and only if some token yields it, in the order in which tokens first do. |
| IndicatorTheorems.OnePrimaryPerToken | src/prompts.rs:295-315 | Every token has one primary entry, which is listed; the only other entry is a URL's host, as an address or a domain. |
| IndicatorTheorems.LowerIsDomain | src/prompts.rs:308-309 | A domain is still one in lower case. |
| IndicatorTheorems.ListsAreWellFormed | src/prompts.rs:295-315 | Listed hashes are lower-case hex of their length, domains lower-case and valid, URLs have a host, and an unclassified value is none of these. |
| SweepQuery.SweepLegs | src/prompts.rs:426-454 | The legs of the generated query by which lists are empty. |
| SweepQuery.PruningKeepsMeaning | src/prompts.rs:409-471 | On every dataset the kept legs find, row by row, what all eight legs find. |
| SweepQuery.SweepFindsExactly | src/prompts.rs:409-471 | What the query finds, table by table and column by column: which rows as which source, and whose account they show. |
| SweepQuery.DroppedLegsHitNothing | src/prompts.rs:426-454 | A leg whose lists are empty finds nothing, whatever `has_any` says of an empty list. |
| SweepQuery.NothingToSweepExactly | src/prompts.rs:455-461 | The query is replaced by a note if and only if no dataset could have a hit. |
| Utf8.TextReadsBack | src/validation.rs:38-40 | Every text is read back from its UTF-8 bytes. |
| Utf8.BytesReadBack | src/validation.rs:38-40 | Bytes that read as a text are that text's only encoding. |
| Utf8.LengthInBytes | src/prompts.rs:285 | The byte length used throughout is that of the encoding. |
| PathSegments.SegmentReadsBack | src/validation.rs:27-40 | Encoding a segment has an inverse on every text. |
| PathSegments.EncodingIsInjective | src/validation.rs:27-40 | No two texts share an encoding. |
| PathSegments.EncodedBytes | src/validation.rs:27-33 | An encoded segment has unreserved characters and percent signs only. |
| PathSegments.ByteIsEncoded | src/validation.rs:27-33 | Letters, digits and `-._~` stay; any other byte becomes a percent sign and two upper-case hexadecimal digits. |
| PathSegments.AcceptedId | src/validation.rs:84-103 | An accepted id is trimmed, not empty, not a dot segment and without control characters. |
| PathSegments.AcceptedExactly | src/validation.rs:84-103 | An id is accepted exactly as what is left of it without white space around it, if that is not empty, `.` or `..`, and has no control character. |
| PathSegments.RejectedExactly | src/validation.rs:88-100 | It is empty exactly when all white space, and a dot segment exactly when trimmed to one. |
| PathSegments.DotsStayDots | src/validation.rs:27-33 | An encoding is a dot segment if and only if the id is. |
| PathSegments.DotRemovalLeavesPath | src/validation.rs:79-97 | Removing dot segments leaves the path of an id unchanged if and only if the id is neither `.` nor `..`. |
| PathSegments.AcceptedIdIsOneSegment | src/validation.rs:79-103 | An accepted id is exactly one segment of the formatted path, is read back from it, and the path survives dot-segment removal. |
| Text.DecimalReadsBack | crates/kql-parser/src/policy.rs:225 | A number is read back from its decimal numeral. |
| Text.WhitespaceIs | src/prompts.rs:273 | White space is the twenty-five characters of the Unicode property. |
| Text.TrimmedIs | src/validation.rs:88 | Trimming leaves the core of a text, whatever stands around it. |
| Text.LowerIs | src/prompts.rs:297-299 | Lower-casing changes the twenty-six capital letters, each to its own small one. |

## Left out

- HTTP, TLS, MCP framing, elicitation transport, browser launching, the loopback listener and process start-up; their outcomes are parameters.
- The pest parser: queries come as trees and spans. `KqlOccurrence.Grammatical` states the shapes of the grammar that matter to the walk, not the whole grammar.
- Expiry of a `Granted` consent and the scopes of an audience: the code does not update the expiry after start-up, and scopes only travel in requests and messages.
- Cancelled calls, panics other than in `refang`, poisoned locks and partial writes: steps complete and appends are atomic.
- Attempt ids are taken as distinct, and time stamps of audit records are not modelled.
- The category of a request only chooses a message; messages, wire names, permission texts and the summary on standard error are not modelled.
- MutationHandlers.KnownLeavesNoCategoryRecord: actions and fields are enumerations; that their names on the wire are distinct is not stated.
- What the validators make of a call's values (targets, parameters, the first invalid value) is a parameter, `Details`.
- The order in which ordered sets list problems, warnings and the first row's columns: any order is allowed.
- `Analysis::columns`, `operator_keywords`, `row_limited` and `time_narrowed`: filters of the recorded sets.
- JSON text of requests, answers, lists in the sweep query and the rendered prompts; `in~` and `has_any` are parameters of the query's meaning.
- Reading an IP address and decoding an ID token: library code, given as functions or outcomes.
- The debug-only override of the five-second step, and overflow of clock values.
- `lookback`, `free_text`, host, CVE, hash and Live Response validators, OData parameters: independent checks a reading settles.
- Read-only dispatchers, catalog data, resources, prompts and artifact streaming.
- MutationServer.DefenderServer.ExecuteMutation: one server object; sessions that share its sink are further attempts of the same `world`, interleaved by the step relation.
- SweepQuery.SweepLegs: the legs are values with a meaning, not the text of the query.
- TokenManager.TokenManager.Enter: between `Enter`, `Acquire` and `Redeem` any other calls, answers and challenges may come; a finer interleaving is the step relation's alone.
