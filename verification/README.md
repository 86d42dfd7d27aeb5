# A verified model of the issue-management backend

This project models, in Dafny, the parts of the backend whose correctness is
hardest to see from one function: the filter language, the life of an issue under
its several writers, the hand-off of attachments to Jira, SLA arithmetic and its
SQL twin, the webhook circuit breaker, three codecs, and the administrator guard.
`dafny verify dfyconfig.toml` checks all of it.

## What is modelled

- **Filter language.** `JqlSyntax` specifies tokens, fields and the parser's result;
  `JqlParser` is the parser with its loops; `JqlTokens` determines the tokenizer by
  laws; `JqlGrammar` proves that the parser accepts exactly the documented grammar;
  `JqlPrinting` that every spelling of a sentence parses to what it denotes;
  `JqlExamples` reads the documented examples; `JqlErrors` says which error a query
  gets. `SearchTerms` determines the prefix query of free text by laws.
  `JqlSql` compiles filters to SQL clauses over rows with NULLs and three-valued
  logic; `JqlMeaning` and `ListQuery` prove that the finished query selects exactly
  the rows asked for, inside the scope. `Like` has the LIKE matcher and its escaping.
- **Issue life cycle.** `Access` has ids, roles and grants; `Lifecycle` the rows, the
  edits and the store; `LifecycleInvariants` what every edit keeps; `IssueEffects` when
  edits, bulk edits and rules are accepted and what they do; `OptimisticStore`
  interleaved load/save pairs and blind updates; `Duplicates` merging and its forest;
  `InterleavedMerges` merges that interleave with other writers; `IssueOperations`
  bulk edits, automation, the sweep and whole runs; `Resolutions` who hears that an
  issue is resolved; `IssueServices` the same services as methods over mutable
  entities, each proved equal to its specification.
- **Attachment hand-off.** `Handoff` is the protocol between the create path, scan
  passes and handlers; `HandoffClaims` and `HandoffRuns` prove what every interleaving
  of them keeps; `HandoffProgress` shows that it cannot
  get stuck; `OverlappingScans` what happens when scan passes overlap;
  `HandoffServices` has the handlers' loops.
- **SLA.** `SlaClock` has both computations, the dashboard counts and policy
  validation; `SlaSweep` interleaved sweeps; `LateMarks` marks and
  `LateReports` reports that come late.
- **Webhooks.** `Webhooks` has chains, the health map and what history says of it;
  `WebhookHistory` what each step adds to history; `WebhooksService` the service.
- **Codecs.** `Csv` with a reader of RFC 4180, section 2; `Instream` with the
  receiving side of the framing; `ContextSanitizer`.
- **Administration.** `Admin` has the operations and what they keep, `AdminEffects` when
  they are accepted and what they do, `AdminService` the service.

A class method states in its `ensures` that the new state is the specification
function of the old one; the lemmas then speak about those functions.

## What the store is taken to do

- Saving a loaded entity compares its version with the stored one and raises it by
  one, or fails (`src/issues/issues.service.ts:495-502`). A save that changes no
  column is treated as raising it too.
- An update through the query builder does not look at the version and raises it
  (`src/comments/comments.service.ts:69-74`).
- A transaction is atomic. Saving an attachment or a member of staff writes the
  row as it was loaded.
- `Date.parse`, the conversion of a date to an instant and full-text matching are
  parameters about which nothing is assumed. Case is folded on ASCII letters.
- A character of the model stands for one UTF-16 code unit; times are reals on one clock.

## Where the code and its comments differ

The model follows the code; each line names the lemma that settles the matter.

- `src/issues/merge.service.ts:64` says duplicate pointers are always one hop deep.
  Merges taken one at a time keep them so exactly as long as no issue that has
  duplicates is merged (`MergeStaysFlatIff`, over runs `PointersOneHopDeepIff`; a run
  that breaks it: `ChainOfThree`). The canonical is read without a guard, so over
  interleaved runs it must also not have become a duplicate when the merge is saved
  (`RunStaysFlatIff`; a run that breaks it: `LateMergeMakesTwoHops`).
- `src/issues/merge.service.ts:187-189` says that every issue merged into a canonical
  is told when it is resolved. Updates from Jira send no event
  (`src/jira/jira-inbound.service.ts:20-22`), so their resolutions tell nobody
  (`JiraResolvesSilently`). Every duplicate is told exactly when there is none, or
  staff resolved the issue and no direct duplicate has duplicates
  (`ResolutionTellsEveryoneIff`; for a listener that looks later `LateFanOutTellsIff`).
- `src/issues/merge.service.ts:212-213` says the version is untouched by the fan-out;
  by the note at `src/comments/comments.service.ts:71` it is raised (`TellAllNotes`).
- Merging reads the canonical without a guard. Interleaved runs keep the forest
  exactly when no merge comes too late (`RunKeepsForestIff`); two merges of each other
  can (`MutualMergesGoWrong`).
- `src/issues/status-side-effects.ts:3-8` says sharing the bookkeeping keeps issues from
  being resolved and closed at once. They are exactly when Jira took them from CLOSED
  to RESOLVED (`BothMarksIff`, over runs `ResolvedAndClosedIff`).
- `src/issues/sla-escalation.service.ts:48` says a reopening makes the update a no-op.
  It tests only that there is no mark: when the mark is still right is
  `LateMarkOfSelectedIff`, and runs in which it is not are `StaleSweepMarksFreshCycle`
  and `StaleSweepMarksResolved`.
- `src/issues/sla-escalation.service.ts:16-19` speaks of one escalation per cycle. That
  is true of marks (`ReportedAtMostOncePerCycle`). A report is sent two statements
  after its mark, so a reopening can fall in between: two reports can be sent between
  the same two restarts (`TwoReportsInOneCycle`), exactly when a late one shares its
  cycle (`ReportedTwiceIff`), and none is late exactly when no reopening falls between
  a mark and its report (`OnTimeIffNotOvertaken`).
- `src/scanning/scan-retry.service.ts:20-22` says leftovers are picked up by the next
  tick. A stranded file is taken up only if fewer than 25 stranded files are newer
  (`TakenUpIfFewAreNewer`), so it waits as long as so many of them stay stranded.
- `src/webhooks/webhooks.service.ts:149` speaks of one probe per cooldown. Events go
  through until a chain is given up on (`NextEventIsProbeIff`); a run with two
  probes is `TwoProbesInOneCooldown`.
- `~` on assignee and reporter does not escape LIKE characters, the text filter does
  (`PeopleMatchIffNoMeta`); IN treats `me` and `unassigned` as plain names
  (`InIsDisjunctionIffNoSentinel`).
- A rule run that loaded the issue before a staff edit records an old priority that
  is no longer the current one (`WriteKeepsReplayIffInStep`, over runs `LogReplaysIff`;
  a run: `StaleAutomationBreaksTheLog`).
- The last-administrator guard and the write after it are separate statements: a late
  write is safe exactly when the guard would pass again (`LateWriteIff`), and two
  administrators disabling each other lock everyone out (`TwoGuardsLockOut`). Saving a
  staff row writes all of it as loaded: when that is safe is `LateSaveIff`, and a mere
  rename that is not is `StaleRenameLocksOut`.

## Model

| member | source | states |
|---|---|---|
| `Like.EscapedMatchesOccurrences` | src/issues/issues.service.ts:578-585 | a LIKE pattern made of `%`, the escaped term and `%` accepts a text exactly when the term occurs in it, for every term and every text |
| `Like.EscapedMatchesOccurrencesFold` | src/issues/jql.ts:244-258 | the same for ILIKE, up to case |
| `Like.UnescapedIsExactIffNoMeta` | src/issues/jql.ts:192-217 | a term wrapped without escaping is matched exactly if and only if it contains no `%`, `_` or backslash |
| `JqlParser.Tokenize` | src/issues/jql.ts:58-71 | the scanning loop produces the tokens of the text, and ends on every text |
| `JqlParser.ParseList` | src/issues/jql.ts:121-132 | the cursor loop over an IN list agrees with the list reading, errors and end position included |
| `JqlParser.ParseClause` | src/issues/jql.ts:98-141 | one pass of the clause loop agrees with the clause reading: field, operator, values, next position, or the error raised |
| `JqlParser.ParseJql` | src/issues/jql.ts:89-157 | the whole parser agrees with the specification of its result, on every input |
| `JqlGrammar.ParserIsTheGrammar` | src/issues/jql.ts:5-21 | a token sequence is accepted with some filters exactly when the documented grammar derives it as those filters |
| `JqlGrammar.AcceptedFiltersWellFormed` | src/issues/jql.ts:37-47 | every accepted filter obeys the table of fields, operators, value counts and value normal forms |
| `JqlGrammar.OperatorsAreDocumented` | src/issues/jql.ts:12-20 | each field takes exactly the operators its documentation lists |
| `JqlGrammar.ValuesAre` | src/issues/jql.ts:73-87 | a status or priority filter takes the names of all statuses or priorities in any case, stored as they are spelt, and no other value; a date filter dates; any other field anything |
| `JqlGrammar.NormalizeStable` | src/issues/jql.ts:73-87 | a normalised value normalises to itself |
| `JqlTokens.TokenizerObeysLaws` | src/issues/jql.ts:58-71 | one law for each kind of lexeme, its characters written out: unquoted values end at white space, parenthesis, comma or quote; signs, quoted values, open quotes and white space |
| `JqlTokens.LawsDetermine` | src/issues/jql.ts:58-71 | whatever obeys these laws gives the same tokens for every text, so they say all of what the tokenizer does |
| `JqlTokens.SpellingsReadBack` | src/issues/jql.ts:58-71 | tokens written down with any white space between them, unquoted words kept apart from what would join them, read back as those tokens |
| `JqlPrinting.SpelledQueriesParse` | src/issues/jql.ts:89-157 | any text that spells tokens legibly is accepted with some filters exactly when the documented grammar derives the tokens as those filters |
| `JqlPrinting.ParsePrint` | src/issues/jql.ts:89-157 | parsing the printed form of any non-empty well-formed filter list gives the list back, with values quoted or bare, keywords in either case, spaced or tight |
| `JqlPrinting.ParsePrintParse` | src/issues/jql.ts:89-157 | printing, in any of these styles, what any text parsed to and parsing again gives the same filters |
| `JqlExamples.FirstExample` | src/issues/jql.ts:8 | the first documented query, with an unquoted IN list, parses to what it says |
| `JqlExamples.SecondExample` | src/issues/jql.ts:9 | so does the second, with a hyphenated key and a date |
| `JqlExamples.ThirdExample` | src/issues/jql.ts:10 | and the third, with a quoted phrase |
| `JqlExamples.UpdatedExample` | src/issues/jql.ts:19 | and a clause on the remaining field |
| `JqlErrors.AfterAnAcceptedQuery` | src/issues/jql.ts:142-154 | after an accepted query, AND and another query gives both their filters, or the error of the second; AND alone, OR and anything else each their own error |
| `JqlErrors.ClauseRefusedBecause` | src/issues/jql.ts:98-141 | a clause is refused with the first thing that is wrong with it, and with nothing else |
| `JqlErrors.EmptyIffBlank` | src/issues/jql.ts:90 | a query counts as empty exactly when it is nothing but white space |
| `JqlSql.WhereBuilder.AndWhere` | src/issues/jql.ts:160-162 | a clause and its parameters are added to the query, after and over what is there |
| `JqlSql.ApplyJqlFilters` | src/issues/jql.ts:167-266 | the loop over the filters adds their clauses and bindings, in order, to what the query already holds |
| `JqlMeaning.ParamNameInjective` | src/issues/jql.ts:168-169 | two generated parameter names are equal only when their numbers are |
| `JqlMeaning.LaterNamesDiffer` | src/issues/jql.ts:168-169 | no later clause binds a name an earlier clause uses, so each placeholder keeps its own value |
| `JqlMeaning.AssigneeReads` | src/issues/jql.ts:190-210 | an assignee clause is TRUE exactly when the row is as asked, `me`, `unassigned` and rows without assignee included |
| `JqlMeaning.ReporterReads` | src/issues/jql.ts:211-227 | a reporter clause is TRUE exactly when name or e-mail is as asked |
| `JqlMeaning.LabelReads` | src/issues/jql.ts:228-236 | a label clause is TRUE exactly when some label of the issue is, or none is, among those asked for |
| `JqlMeaning.TextClauseReads` | src/issues/jql.ts:244-260 | a text clause is TRUE exactly when the reference number or the text matches, with or without a search vector |
| `JqlMeaning.ColumnReads` | src/issues/jql.ts:174-189 | a status, priority or platform clause is TRUE exactly when the column is as asked |
| `JqlMeaning.ClauseReads` | src/issues/jql.ts:171-266 | the clause of any filter evaluates to TRUE, in three-valued logic, exactly when the row satisfies the filter's plain reading |
| `JqlMeaning.ClausesRead` | src/issues/jql.ts:171-266 | the same for all clauses of a filter list together |
| `JqlMeaning.FiltersMeanWhatTheySay` | src/issues/jql.ts:164-266 | a query the filters are applied to selects exactly the rows it selected before that satisfy every filter: results only narrow |
| `JqlMeaning.EqualityPartitions` | src/issues/jql.ts:171-236 | for every field with both `=` and `!=`, every value and every row, exactly one of the two clauses is TRUE |
| `JqlMeaning.InIsDisjunctionIffNoSentinel` | src/issues/jql.ts:195-204 | IN over a field's values means the disjunction of `=` over them, for all rows, if and only if none of them is an assignee sentinel |
| `JqlMeaning.PeopleMatchIffNoMeta` | src/issues/jql.ts:192-217 | `~` on assignees matches by occurrence in the name, and on reporters in name or address, for all rows, if and only if the value contains no LIKE metacharacter: unlike the text filter it does not escape |
| `SearchTerms.PrefixQueryLaws` | src/issues/search-terms.ts:6-15 | a stretch without space stands for the prefix of its letters and digits in lower case, or for nothing; a space between two texts for both their queries |
| `SearchTerms.QueryLawsDetermine` | src/issues/search-terms.ts:6-15 | whatever obeys these two laws gives the same query for every text |
| `SearchTerms.OuterSpaceIgnored` | src/issues/search-terms.ts:8 | white space around a text changes nothing |
| `ListQuery.TrimIs` | src/issues/issues.service.ts:577-578 | trimming takes white space off both ends, all of it and nothing else |
| `ListQuery.BuildListQuery` | src/issues/issues.service.ts:530-574 | the list query holds the clauses and bindings of scope, simple filters, JQL and search box, or fails with the parse error |
| `ListQuery.ListSelectsWhatWasAsked` | src/issues/issues.service.ts:530-574 | it selects exactly the rows in scope that pass every simple filter, satisfy the JQL and match the search box; JQL cannot reach outside the scope |
| `IssueEffects.EditAcceptedIff` | src/issues/issues.service.ts:321-453 | which edits go through, in terms of version, grants, the focal-point flag, the edges of the status machine and the assignee's account |
| `IssueEffects.EditRefusedBecause` | src/issues/issues.service.ts:321-453 | every other edit is refused with the first thing that stands in its way |
| `IssueEffects.EditDoes` | src/issues/status-side-effects.ts:9-26 | what an edit that goes through leaves: the row as asked for, with its marks and clock, and its records, old values included |
| `IssueEffects.InboundCategories` | src/jira/jira-inbound.service.ts:10-14 | what each inbound category makes of each status |
| `IssueEffects.NewIssues` | src/reporter/reporter.service.ts:161-206 | a new issue is NEW, of medium priority, unassigned, unmarked, its clock running from its creation |
| `IssueEffects.WriteDoes` | src/issues/automation.service.ts:223-278 | what each update that ignores the version writes and records |
| `IssueEffects.CommentsMeanReloading` | src/comments/comments.service.ts:69-74 | a staff edit by someone who last looked before a comment was made is refused |
| `LifecycleInvariants.OnlyReopeningRevives` | src/issues/status-side-effects.ts:9-26 | an issue comes back to life only as REOPENED, which clears its marks and restarts its SLA clock; nothing else moves the clock |
| `LifecycleInvariants.EditsKeepTheRest` | src/issues/issues.service.ts:321-453 | an edit changes the fields it is about and no others |
| `LifecycleInvariants.EditKeepsCoherent` | src/issues/status-side-effects.ts:9-26 | every edit keeps the timestamps and the duplicate pointer consistent with the status |
| `LifecycleInvariants.BothMarksIff` | src/issues/status-side-effects.ts:3-26 | an edit leaves an issue resolved and closed at once exactly when Jira calls a CLOSED issue done, or it was so already and the edit is of priority or assignee |
| `LifecycleInvariants.DecidedReplay` | src/issues/issues.service.ts:335-353 | the records of one edit lead from the row's status and priority to the new ones |
| `LifecycleInvariants.DecidedSanctioned` | src/issues/status-machine.ts:5-16 | every recorded staff status edge is one of the machine's, a merge's close, or Jira's |
| `LifecycleInvariants.EditKeepsSound` | src/issues/issues.service.ts:321-453 | every edit on a freshly loaded row keeps rows coherent, the log replaying to where issues stand, and every recorded change sanctioned |
| `LifecycleInvariants.WriteKeepsReplayIffInStep` | src/issues/automation.service.ts:216-242 | an update that ignores the version keeps the log replaying if and only if the old value it records is the current one |
| `LifecycleInvariants.CreateKeepsSound` | src/reporter/reporter.service.ts:161-206 | a new issue starts a replayable history at NEW |
| `OptimisticStore.SuccessfulSave` | src/issues/issues.service.ts:303-362 | a save that succeeds, in any interleaving, leaves the row equal to its edit applied to the row as it stood just before |
| `OptimisticStore.FailedSave` | src/issues/issues.service.ts:495-502 | a save that fails changes nothing |
| `OptimisticStore.InterleavingIsAtomic` | src/issues/issues.service.ts:611-626 | every interleaved run of loads, saves and blind updates ends in the store that its successful operations, one at a time, produce |
| `OptimisticStore.NoUnseenOverwrite` | src/issues/issues.service.ts:620-626 | between the moment its author saw the issue and a successful staff save, nobody else changed the row |
| `OptimisticStore.RunKeepsRows` | src/issues/status-side-effects.ts:9-26 | rows stay coherent through every interleaving |
| `OptimisticStore.ResolvedAndClosedIff` | src/jira/jira-inbound.service.ts:44-84 | in every interleaving of all writers, an issue is resolved and closed at once exactly when the last status change on record is Jira taking it from CLOSED to RESOLVED |
| `OptimisticStore.RunKeepsSound` | src/issues/issues.service.ts:321-453 | rows, log and sanctions are kept by every interleaving whose blind updates record current values |
| `OptimisticStore.LogReplaysIff` | src/issues/automation.service.ts:216-242 | in every interleaving, the log ends up replaying to where issues stand if and only if every priority write of the run recorded the current value; what breaks is never mended |
| `OptimisticStore.StaleAutomationBreaksTheLog` | src/issues/automation.service.ts:200-234 | that condition is needed: a rule that loaded before a staff edit leaves a log that does not replay |
| `Duplicates.AcyclicMeansNoCycle` | src/issues/merge.service.ts:64-77 | if every chain of duplicate pointers ends, no issue is reached from itself |
| `Duplicates.PointingKeepsAcyclicIff` | src/issues/merge.service.ts:85-92 | setting one pointer keeps the pointers acyclic if and only if the target's chain does not lead to the issue |
| `Duplicates.EditKeepsForest` | src/issues/status-side-effects.ts:14-19 | reopening and every other edit keeps the pointers a forest within platforms |
| `Duplicates.WriteKeepsForest` | src/issues/automation.service.ts:216-281 | so does every blind update |
| `Duplicates.MergeAcceptedIff` | src/issues/merge.service.ts:36-80 | a merge is accepted, and lands on which issue, exactly when: two issues of one platform, the duplicate open to merging and at the version seen, and the canonical, or what it was merged into, a different root that is not CLOSED |
| `Duplicates.MergeRefusedBecause` | src/issues/merge.service.ts:37-80 | and otherwise refused with the first thing that stands in its way |
| `Duplicates.FlatteningLandsOnTheRoot` | src/issues/merge.service.ts:64-77 | merging into a duplicate lands on its canonical |
| `Duplicates.MergeJoinsRoots` | src/issues/merge.service.ts:36-80 | a merge joins a root to a different root of the same platform, neither CLOSED, the flattened platform following from the forest |
| `Duplicates.MergeCarriesWatchers` | src/issues/merge.service.ts:85-175 | watchers are carried over and none lost; link, two audit records and two comments are written |
| `Duplicates.MergeKeepsForest` | src/issues/merge.service.ts:36-92 | atomic merges keep the pointers an acyclic forest within platforms |
| `Duplicates.MergeKeepsSound` | src/issues/merge.service.ts:162-174 | merges keep rows coherent and the log replaying |
| `Duplicates.LateMergeKeepsAcyclicIff` | src/issues/merge.service.ts:85-92 | a merge saved against a later store keeps the pointers acyclic if and only if the canonical's chain does not by then lead to the duplicate |
| `Duplicates.ConcurrentMergesCloseACycle` | src/issues/merge.service.ts:41-49 | two issues merged into each other at once close a cycle, the canonical being read unguarded |
| `InterleavedMerges.StepKeepsForestIff` | src/issues/merge.service.ts:85-92 | a step of any writer keeps the forest exactly when it is no merge whose canonical has by then left the table, the platform, or come to lead to the duplicate |
| `InterleavedMerges.RunKeepsForestIff` | src/issues/merge.service.ts:36-92 | every state of an interleaved run is a forest exactly when no merge of the run comes too late |
| `InterleavedMerges.MutualMergesGoWrong` | src/issues/merge.service.ts:41-49 | a run from the empty store in which two issues are merged into each other, both canonicals being what the service chooses when it reads |
| `InterleavedMerges.StepStaysFlatIff` | src/issues/merge.service.ts:64-92 | where pointers are one hop deep, a step of any writer keeps them so exactly when it is no merge of an issue that has duplicates, nor into itself or an issue that has become a duplicate by the time of the save |
| `InterleavedMerges.RunStaysFlatIff` | src/issues/merge.service.ts:36-92 | and so throughout every interleaved run |
| `InterleavedMerges.LateMergeMakesTwoHops` | src/issues/merge.service.ts:64-92 | a run in which neither issue merged has duplicates, every check passes when it is made, and a pointer ends up two hops deep |
| `Duplicates.MergeStaysFlatIff` | src/issues/merge.service.ts:64-77 | where pointers are one hop deep, an atomic merge keeps them so exactly when the issue merged has no duplicates of its own |
| `Duplicates.AllAreDirectIff` | src/issues/merge.service.ts:191-197 | the issues whose pointer is the given one are all its duplicates, direct or not, exactly when none of them has duplicates of its own |
| `IssueOperations.BulkAccountsForAll` | src/issues/issues.service.ts:479-525 | every id of a bulk edit is counted as updated or listed as skipped |
| `IssueOperations.BulkOneSkipsCleanly` | src/issues/issues.service.ts:482-523 | undisturbed between load and save, a skipped id changes nothing, an updated one exactly its own row by one version, and there is no version conflict |
| `IssueEffects.BulkOneSkipsBecause` | src/issues/issues.service.ts:475-523 | an id is skipped as not visible exactly when it is missing or the caller has no write role there, and otherwise with the reason its single edit is refused |
| `IssueEffects.BulkDoes` | src/issues/issues.service.ts:458-526 | after a bulk edit of different issues each is skipped and unchanged, or has the status, priority or assignee asked for, one version on |
| `IssueOperations.BulkTouchesOnlyListed` | src/issues/issues.service.ts:482-523 | a bulk edit leaves every other issue as it was |
| `IssueOperations.BulkKeeps` | src/issues/issues.service.ts:455-526 | bulk edits keep rows, log and forest |
| `IssueOperations.CopyStaysInStep` | src/issues/automation.service.ts:235-237 | the in-memory issue of a rule run agrees with the stored row after every rule |
| `IssueOperations.LoadingOnceIsEnough` | src/issues/automation.service.ts:196-214 | loading the issue once for a run of rules does what loading it before each rule would do |
| `IssueEffects.RulesTakeEffect` | src/issues/automation.service.ts:196-281 | after a run of rules the issue has the priority and assignee of the last rule that sets one, every label is on record, and nothing else has changed |
| `IssueOperations.RulesKeep` | src/issues/automation.service.ts:196-281 | rule runs keep rows, log and forest |
| `IssueOperations.SweepMarksExactlyTheOverdue` | src/issues/sla-escalation.service.ts:36-67 | an atomic sweep marks and counts exactly the open, unmarked, past-due issues |
| `IssueOperations.TellAllNotes` | src/issues/merge.service.ts:199-221 | the fan-out writes one note per duplicate, in order, records nothing, and raises the version of each issue told, changing nothing else |
| `IssueOperations.ServeKeeps` | src/issues/issues.service.ts:303-526 | every kind of request keeps rows coherent, the log replaying and sanctioned, and the forest |
| `IssueOperations.EveryRunKeeps` | src/issues/issues.service.ts:303-526 | from an empty store, every run of the requests the issue services are proved to serve keeps rows coherent, the log replaying through sanctioned changes, and the pointers a forest |
| `IssueOperations.PointersOneHopDeepIff` | src/issues/merge.service.ts:64-77 | with merges taken as atomic, pointers are one hop deep throughout a run of any requests exactly when the run never merges an issue that has duplicates at that moment |
| `IssueOperations.ChainOfThree` | src/issues/merge.service.ts:64-67 | a run from the empty store after which a pointer is two hops deep |
| `Resolutions.WhoResolves` | src/issues/issues.service.ts:321-361 | an issue is resolved exactly by a staff edit or a Jira update that goes through and says so, and only the former announces it |
| `Resolutions.StretchPoints` | src/issues/status-side-effects.ts:14-19 | after any stretch of an interleaved run, an issue points where its last merge or reopening pointed it |
| `Resolutions.LateFanOutTellsIff` | src/issues/merge.service.ts:187-227 | whatever happens between a resolution and the look of the listener, every duplicate, direct or not, is told exactly when there is none, or staff resolved the issue and each of them points straight at it by then |
| `Resolutions.ResolutionTellsEveryoneIff` | src/issues/merge.service.ts:187-227 | when the listener looks at once: exactly when there is no duplicate, or staff resolved the issue and no direct duplicate has duplicates |
| `Resolutions.JiraResolvesSilently` | src/jira/jira-inbound.service.ts:19-22 | a run from the empty store in which Jira resolves an issue with a duplicate and nobody is told |
| `IssueServices.IssueEntity.ApplyStatusSideEffects` | src/issues/status-side-effects.ts:9-26 | the in-place bookkeeping gives the row its specification prescribes |
| `IssueServices.Database.SaveIssue` | src/issues/issues.service.ts:495-502 | the version is compared and the row, its new version and its audit records written, or nothing |
| `IssueServices.Database.UpdateIssue` | src/issues/automation.service.ts:224-233 | a version-bumping update of whatever is stored, with its audit record |
| `IssueServices.ApplyStatus` | src/issues/issues.service.ts:321-362 | checks, in-place change and save agree with committing the edit |
| `IssueServices.ApplyPriority` | src/issues/issues.service.ts:417-453 | likewise for priority |
| `IssueServices.ApplyAssignment` | src/issues/issues.service.ts:364-415 | likewise for the assignee |
| `IssueServices.ChangeStatus` | src/issues/issues.service.ts:303-307 | loading and changing at once is the atomic edit |
| `IssueServices.ChangePriority` | src/issues/issues.service.ts:315-319 | likewise for priority |
| `IssueServices.ChangeAssignment` | src/issues/issues.service.ts:309-313 | likewise for the assignee |
| `IssueServices.BulkUpdate` | src/issues/issues.service.ts:458-526 | the loop and its report agree with the bulk specification |
| `IssueServices.CloseDuplicate` | src/issues/merge.service.ts:85-175 | the merge transaction's writes agree with committing the close |
| `IssueServices.MergeIssues` | src/issues/merge.service.ts:36-184 | checks in the order of the service, one flattening step, and the close, or the same refusal |
| `IssueServices.OnCanonicalStatusChanged` | src/issues/merge.service.ts:191-227 | the fan-out loop tells exactly the issues merged directly into a resolved one |
| `IssueServices.ApplyWebhook` | src/jira/jira-inbound.service.ts:32-74 | an inbound status is applied as the specification says, and reported as applied exactly when it was |
| `IssueServices.ApplyAction` | src/issues/automation.service.ts:216-281 | one rule acts on store and in-memory issue as specified |
| `IssueServices.ApplyRules` | src/issues/automation.service.ts:196-214 | the rule loop agrees with the run of its rules |
| `IssueServices.SelectOverdue` | src/issues/sla-escalation.service.ts:35-44 | the query lists exactly the open, unmarked, past-due issues |
| `IssueServices.EscalateRows` | src/issues/sla-escalation.service.ts:46-67 | over any rows, stale or not, the loop marks, reports and counts exactly those still unmarked |
| `IssueServices.Sweep` | src/issues/sla-escalation.service.ts:32-74 | undisturbed between query and loop, it marks, reports and counts exactly the open, unmarked, past-due issues |
| `SlaClock.ValidateSlaPolicy` | src/admin/admin.service.ts:90-107 | a policy is accepted with its entries exactly when all are acceptable, an empty one becomes null, and otherwise the first bad entry is reported |
| `SlaClock.SameWindow` | src/issues/sla.ts:77-89 | for every policy, valid or not, and every environment, the SQL window is the TypeScript window |
| `SlaClock.SqlAgrees` | src/dashboard/dashboard.service.ts:189-203 | for every policy and every issue with a baseline, the SQL overdue and at-risk tests hold exactly when the service says breached and at risk |
| `SlaClock.SqlAgreesIff` | src/dashboard/dashboard.service.ts:189-203 | for rows without a baseline too: the two agree exactly when there is one, or the issue is not open, or it was created less than the at-risk time ago |
| `SlaClock.DashboardCounts` | src/dashboard/dashboard.service.ts:189-203 | the dashboard tallies equal the number of rows the service puts in each state |
| `SlaClock.DueTimes` | src/issues/sla.ts:19-70 | due time and state from the policy's hours, else the environment's, else 4, 24, 72 or 168, and at risk from four fifths unless set otherwise |
| `SlaClock.EntriesAccepted` | src/admin/admin.service.ts:90-107 | a policy entry is accepted exactly when it names a priority and gives more than nothing and at most a year of hours, and which error it gets otherwise |
| `SlaClock.PolicyHasTheLast` | src/admin/admin.service.ts:93-105 | of several entries for one priority the stored policy has the last |
| `SlaClock.PolicyHasNoOther` | src/admin/admin.service.ts:93-105 | and it has exactly the priorities that were named |
| `SlaClock.OnlyForward` | src/issues/sla.ts:64-69 | with inputs fixed, the state only moves forward as time passes, and an open issue is breached exactly from its due time on |
| `SlaSweep.SweepSelectsTheBreached` | src/issues/sla-escalation.service.ts:36-44 | the sweep's query selects exactly the unmarked issues the service shows as breached |
| `SlaSweep.ReportedAtMostOncePerCycle` | src/issues/sla-escalation.service.ts:47-67 | in every interleaving of sweeps with other writers, no two reports of an issue follow marks made between the same two restarts of its clock |
| `LateMarks.StretchMoves` | src/issues/status-side-effects.ts:9-26 | after any stretch of a run, status, clock and cycle count of an issue are what its last move and its last reopening left |
| `LateMarks.LateMarkIff` | src/issues/sla-escalation.service.ts:47-54 | a mark made after any stretch of other steps goes through, and finds the issue open and past due exactly when the stretch did not leave it closed and its window, from the last reopening, is over |
| `LateMarks.LateMarkOfSelectedIff` | src/issues/sla-escalation.service.ts:48-54 | for a selected issue whose window has not grown: exactly when it was not left closed and not reopened within one window of the mark; if all reopenings are that recent, exactly when there was none |
| `LateMarks.StaleSweepMarksResolved` | src/issues/sla-escalation.service.ts:48-54 | a run in which an issue resolved between select and update is marked and reported |
| `LateMarks.StaleSweepMarksFreshCycle` | src/issues/sla-escalation.service.ts:48-54 | a run in which an issue reopened between select and update is marked and reported in its new cycle, not past due |
| `LateReports.AtMostOneOnTime` | src/issues/sla-escalation.service.ts:47-67 | of the reports of an issue sent between the same two restarts, at most one follows a mark made there |
| `LateReports.ReportedTwiceIff` | src/issues/sla-escalation.service.ts:47-67 | two reports of an issue are sent between the same two restarts exactly when one sent after a restart that followed its mark shares that time with another |
| `LateReports.OnTimeIffNotOvertaken` | src/issues/sla-escalation.service.ts:50-65 | in every interleaving, every report is sent in the cycle of its mark exactly when no restart of the clock falls between a mark and the report of it |
| `LateReports.TwoReportsInOneCycle` | src/issues/sla-escalation.service.ts:50-65 | a run from the start with two reports of an issue between the same two restarts |
| `Handoff.StartInv` | src/jira/jira.listener.ts:38-57 | a newly created issue satisfies the protocol invariant |
| `HandoffRuns.StepKeepsInv` | src/jira/jira.listener.ts:61-144 | every step of create path, scan passes, announcements and handlers keeps it: exclusive claims, no second push, and every cleared file still looked at by someone |
| `HandoffRuns.NeverTwice` | src/jira/jira.listener.ts:114-144 | at every moment of every run, failures included, at most one handler holds a file, it was pushed at most once, and only if cleared |
| `HandoffRuns.ExactlyOnce` | src/scanning/scanning.listener.ts:47-73 | when the issue exists in Jira and everything has come to rest, every cleared file whose push did not fail was pushed exactly once, and no other was |
| `HandoffProgress.SomethingToDo` | src/jira/jira.listener.ts:61-144 | unless everything is at rest, some step other than a failure is possible and leaves less to do |
| `HandoffProgress.CanComeToRest` | src/jira/jira.listener.ts:61-144 | every run can be continued, without a further failure, until everything is at rest |
| `HandoffProgress.EveryRunCanDeliver` | src/jira/jira.listener.ts:61-144 | from every run without failure, some continuation pushes every file it clears exactly once |
| `OverlappingScans.StepKeepsClaimsIff` | src/scanning/scanning.listener.ts:28-42 | with scan passes that may overlap, a step keeps claims exclusive and files held cleared exactly when it saves no scan over a push mark, and takes back no file still to be claimed |
| `OverlappingScans.ClaimsStaySoundIff` | src/scanning/scanning.listener.ts:28-42 | and so over whole runs; where it holds, no file was pushed twice |
| `OverlappingScans.AnnouncedIffCleared` | src/scanning/scan-retry.service.ts:73-96 | whatever else goes on, the end of a pass is announced exactly when it is the intake pass or made some file servable |
| `OverlappingScans.OverlappingScansPushTwice` | src/scanning/scan-retry.service.ts:53-78 | a run from a new issue in which intake and a retry pass overlap and the file is pushed twice |
| `HandoffServices.WithRetry` | src/jira/jira.listener.ts:156-169 | at most three attempts, stopping at the first success, and success reported exactly when one of them succeeded |
| `HandoffServices.Attachments.ClaimFile` | src/jira/jira.listener.ts:122-127 | the compare-and-set claim succeeds exactly on an unmarked file |
| `HandoffServices.Attachments.PushFile` | src/jira/jira.listener.ts:119-142 | claim, push, release on failure, for a file as it was listed; one claimed or deleted since is left alone |
| `HandoffServices.Attachments.SyncAttachments` | src/jira/jira.listener.ts:117-144 | left alone, the loop pushes every file that needed it, marks those that landed and releases the others |
| `HandoffServices.PushAllDoes` | src/jira/jira.listener.ts:117-144 | which files such a pass pushes, marks, counts and remembers as failed |
| `HandoffServices.PushListedDoes` | src/jira/jira.listener.ts:119-142 | a file listed some time ago is pushed exactly when it was listed as cleared and unmarked and is there and still unmarked |
| `HandoffServices.UninterruptedSync` | src/jira/jira.listener.ts:117-144 | and what it does is a stretch of the protocol, every claim and push enabled in turn, ending in the same tables |
| `HandoffServices.ScanService.ScanAndPersist` | src/scanning/scanning.listener.ts:28-42 | a verdict is stored and returned; a scanner that threw leaves the file pending |
| `HandoffServices.ScanService.OnIssueCreated` | src/scanning/scanning.listener.ts:56-73 | intake scans every pending file and announces the end exactly when there was one |
| `HandoffServices.ScanService.Sweep` | src/scanning/scan-retry.service.ts:49-103 | the retry sweep re-scans its batch, counts the rescued, and announces each issue with a rescued file once and no other |
| `HandoffServices.SweepOnlyResolves` | src/scanning/scan-retry.service.ts:53-65 | a sweep never touches a file with a verdict, and a file stays stuck exactly when it was not in the batch or its scan threw |
| `HandoffServices.TakenUpIfFewAreNewer` | src/scanning/scan-retry.service.ts:43-58 | the sweep takes a stranded file up only if fewer than 25 stranded files are newer, and does if fewer than 25 others are as new |
| `Webhooks.StepKeeps` | src/webhooks/webhooks.service.ts:38-155 | every delivery, outcome and retry keeps the breaker equal to what history says |
| `Webhooks.BreakerFollowsHistory` | src/webhooks/webhooks.service.ts:127-155 | after any run, an endpoint has an entry exactly when it failed since its last success, with that count, and a mute time exactly from the third failure, five minutes after the last |
| `Webhooks.NoStartWhileMuted` | src/webhooks/webhooks.service.ts:47-54 | no chain starts before its endpoint's mute time |
| `Webhooks.ChainsAreBounded` | src/webhooks/webhooks.service.ts:111-125 | every chain makes one to four sends and has one outcome exactly when it is over; it is given up on only after its fourth send |
| `WebhookHistory.RetriesWait` | src/webhooks/webhooks.service.ts:111-125 | after the first, second and third failed send the next is due 2, 8 and 30 seconds later; the fourth is given up on at once |
| `WebhookHistory.OutcomesAreOfTheirChain` | src/webhooks/webhooks.service.ts:111-155 | in every run each outcome is of the endpoint its chain was started for, and each chain is started once |
| `WebhookHistory.DeliveryReaches` | src/webhooks/webhooks.service.ts:38-55 | an event starts one chain and one send, in order, for every candidate that lists it or has no list and whose mute time by history has passed, and for no other |
| `Webhooks.NextEventIsProbeIff` | src/webhooks/webhooks.service.ts:136-155 | after a cooldown and a first event, and whatever happens next, a further event within one more cooldown goes through exactly when no chain of the endpoint was given up on in between, or a success brought its failures below three |
| `Webhooks.TwoProbesInOneCooldown` | src/webhooks/webhooks.service.ts:148-153 | a reachable run in which that happens |
| `WebhooksService.Service.Deliver` | src/webhooks/webhooks.service.ts:38-55 | the loop over the candidates agrees with the fan-out that DeliveryReaches determines |
| `WebhooksService.Service.OnSent` | src/webhooks/webhooks.service.ts:111-125 | an answer or a failure of a send is handled as specified: success, retry in 2, 8 or 30 seconds, or giving up |
| `WebhooksService.Service.OnDelivered` | src/webhooks/webhooks.service.ts:127-134 | a success forgets the endpoint's failures |
| `WebhooksService.Service.OnExhausted` | src/webhooks/webhooks.service.ts:136-155 | a chain given up on counts one failure and arms the mute time from the third on |
| `WebhooksService.Service.OnTimer` | src/webhooks/webhooks.service.ts:114-120 | a due retry sends again |
| `Csv.ToCsv` | src/issues/issues.csv.ts:15-41 | the loop writes the header and one line per issue, joined by CRLF |
| `Csv.CellReadsBack` | src/issues/issues.csv.ts:9-13 | a written field reads back as its guarded text, whatever it contains and whatever follows |
| `Csv.LinesReadBack` | src/issues/issues.csv.ts:20-41 | any non-empty records written as lines are read back, field by field |
| `Csv.ExportReadsBack` | src/issues/issues.csv.ts:20-41 | a reader of RFC 4180, section 2, recovers one header and one record per issue, ten fields each, equal to the guarded values, none starting a formula |
| `Csv.ColumnsAreNamed` | src/issues/issues.csv.ts:3-41 | read back by header, each of the ten columns is the field of that name, with a quote before it exactly when a spreadsheet would run it |
| `Csv.GuardCollides` | src/issues/issues.csv.ts:3-13 | the guard confuses two fields only when one is the other with a quote before a formula |
| `Instream.WriteFramed` | src/scanning/clamav-scan.service.ts:62-76 | the chunk loop writes the frames of the buffer and the terminator |
| `Instream.FramingReadsBack` | src/scanning/clamav-scan.service.ts:43-76 | a reader of lengths and chunks recovers the buffer and stops exactly at its end, whatever follows |
| `Instream.FramesAreSound` | src/scanning/clamav-scan.service.ts:43-76 | only the terminator has length zero, every chunk but the last is of 64 KiB, and the size is n + 4(ceil(n/65536) + 1) |
| `ContextSanitizer.ClampValue` | src/reporter/context-sanitizer.ts:22-48 | the recursive traversal with its loops agrees with the specification |
| `ContextSanitizer.ClampBounded` | src/reporter/context-sanitizer.ts:7-12 | the result never exceeds depth, array, key-count, key-length and string bounds and has no forbidden key, at any depth |
| `ContextSanitizer.FixedIffBounded` | src/reporter/context-sanitizer.ts:22-48 | a value is unchanged exactly when it is within every bound |
| `ContextSanitizer.ClampTwice` | src/reporter/context-sanitizer.ts:22-48 | clamping is idempotent at every depth, colliding cut keys and over-long strings included |
| `ContextSanitizer.BoundedIsFlat` | src/reporter/context-sanitizer.ts:11-23 | a bounded value is at most six levels deep |
| `ContextSanitizer.StringsAndArraysKeepTheirStart` | src/reporter/context-sanitizer.ts:24-35 | strings keep their first thousand characters and get a mark only when longer; arrays keep their first 25 items, each clamped in place, and none at the deepest level |
| `ContextSanitizer.ObjectsKeepTheLast` | src/reporter/context-sanitizer.ts:36-46 | of the first forty permitted entries, each cut key holds the last one cut to it |
| `ContextSanitizer.AssignInPlace` | src/reporter/context-sanitizer.ts:43-44 | a key assigned again keeps its place |
| `ContextSanitizer.ForbiddenKeysAreInvisible` | src/reporter/context-sanitizer.ts:38-40 | a forbidden key changes nothing wherever it stands, not even the forty-entry budget |
| `ContextSanitizer.SanitizeContext` | src/reporter/context-sanitizer.ts:50-71 | the whole sanitizer agrees with its specification |
| `ContextSanitizer.StoredContexts` | src/reporter/context-sanitizer.ts:50-71 | what may be stored is exactly the non-empty objects within every bound and the size cap, and sanitizing them again returns them unchanged |
| `ContextSanitizer.ContextsAreKept` | src/reporter/context-sanitizer.ts:55-71 | a context is stored unless it does not parse, is no object, has no permitted entry, or is too large once clamped |
| `ContextSanitizer.StoredContextsHold` | src/reporter/context-sanitizer.ts:36-71 | what is stored holds under every key what the first forty permitted entries say of it |
| `AdminEffects.AcceptedIff` | src/admin/admin.service.ts:118-405 | each operation is accepted exactly when what it names exists, nothing clashes, scopes are right and another active administrator is left |
| `AdminEffects.RefusedBecause` | src/admin/admin.service.ts:118-405 | and otherwise refused with the first thing that stands in its way |
| `AdminEffects.OperationsDo` | src/admin/admin.service.ts:118-405 | an accepted operation leaves the row it is about as asked for and everything else as it was, but for what goes with a deleted row |
| `Admin.OpKeeps` | src/admin/admin.service.ts:118-405 | every operation, accepted or refused, keeps an active administrator, scoped grants, references and uniqueness |
| `Admin.EveryRunKeeps` | src/admin/admin.service.ts:118-405 | so does every run of operations |
| `Admin.DeletePlatformKeeps` | src/admin/admin.service.ts:118-141 | deleting a platform cannot take an administrator's grant with it |
| `Admin.RefusedIffItLocksOut` | src/admin/admin.service.ts:299-316 | disabling, deleting or revoking is refused for want of another administrator exactly when it would leave none |
| `Admin.ClashIsWithAnother` | src/admin/admin.service.ts:234-241 | a clash over a new address or the login subject made from it is always with another row |
| `Admin.SessionsEnd` | src/admin/admin.service.ts:229-256 | disabling a user or changing their address raises their token version, and nothing lowers it |
| `Admin.LateWriteIff` | src/admin/admin.service.ts:302-316 | a disabling, with or without a change of address, deletion or revocation written some time after its guard leaves an active administrator exactly when the guard would pass again at that moment |
| `Admin.LateSaveIff` | src/admin/admin.service.ts:216-256 | any edit of a staff row saved some time after it was loaded leaves an active administrator exactly when there is another one by then, or the row written is active and granted ADMIN |
| `Admin.StaleRenameLocksOut` | src/admin/admin.service.ts:217-256 | a run of accepted operations in which a rename, loaded while its target was disabled, leaves no administrator |
| `Admin.TwoGuardsLockOut` | src/admin/admin.service.ts:302-316 | guard and write being separate, two administrators disabling each other can lock everyone out |
| `AdminService.Service.AssertNotLastAdmin` | src/admin/admin.service.ts:302-316 | the count refuses exactly when there is no other active administrator |
| `AdminService.Service.UpdateStaff` | src/admin/admin.service.ts:216-268 | the field-by-field edit, with its guards, the clash over address and login subject, and its errors, agrees with the specification |
| `AdminService.Service.CreateStaff` | src/admin/admin.service.ts:184-207 | likewise for creating a user |
| `AdminService.Service.DeleteStaff` | src/admin/admin.service.ts:278-297 | likewise for deleting one, with what the store cascades to |
| `AdminService.Service.AssignRole` | src/admin/admin.service.ts:337-384 | likewise for granting a role |
| `AdminService.Service.RevokeRole` | src/admin/admin.service.ts:386-408 | likewise for revoking one |
| `AdminService.Service.DeletePlatform` | src/admin/admin.service.ts:118-141 | likewise for deleting a platform, with what the store cascades to |

## Left out

- Duplicates.MergeKeepsForest: takes the merge as one atomic step; for merges that interleave the exact condition is InterleavedMerges.RunKeepsForestIff.
- OptimisticStore.RunKeepsSound: asks priority writes to record current values; that this is exactly when the log replays is OptimisticStore.LogReplaysIff.
- IssueOperations.PointersOneHopDeepIff: takes merges as atomic; for merges that interleave the exact condition is InterleavedMerges.RunStaysFlatIff.
- IssueOperations.BulkOneSkipsCleanly: nothing comes between load and save; a concurrent writer makes the save fail as in OptimisticStore.FailedSave, and the id is skipped.
- Resolutions.LateFanOutTellsIff: a fan-out whose transaction fails is logged and tells nobody; that failure is not modelled.
- SlaSweep.ReportedAtMostOncePerCycle: speaks of the cycles of marks; of the cycles reports are sent in it is false (LateReports.TwoReportsInOneCycle; exact conditions are LateReports.ReportedTwiceIff and LateReports.OnTimeIffNotOvertaken).
- HandoffRuns.ExactlyOnce: assumes one scan in flight per file, because it is false without it (OverlappingScans.OverlappingScansPushTwice; the exact condition is OverlappingScans.ClaimsStaySoundIff), and one attempt to create the Jira issue; the PENDING check of the create path and its staleness window are not part of the protocol.
- HandoffRuns.NeverTwice: counts a push that Jira reports as failed as not made.
- IssueOperations.SweepMarksExactlyTheOverdue: holds of an atomic sweep; interleaved sweeps are in SlaSweep and LateMarks.
- IssueServices.Sweep: runs query and loop undisturbed; the loop over rows that have changed since is IssueServices.EscalateRows.
- LateMarks.LateMarkIff: windows are fixed during the stretch; a policy edited in between is not modelled.
- Admin.EveryRunKeeps: takes each operation as one atomic step; TwoGuardsLockOut shows why. Accounts an identity provider vouches for are there from the start, and their profile refresh at login is not modelled.
- AdminService.Service.CreateStaff: passwords and their hashes are not modelled.
- ContextSanitizer.SanitizeContext: parsing the text and counting bytes are given as parameters.
- SlaClock.SqlAgrees: times and hours are reals, without floating-point rounding.
- WebhooksService.Service.Deliver: the query for a platform's enabled endpoints is given as the list of candidates.
- HandoffRuns.StepKeepsInv: a platform without Jira, or a Jira client without configuration, hands nothing over and is not modelled.
- The audit log is replayed for status and priority only: deleting a staff row unassigns issues without a record.
- Looking an issue up by its Jira key gives an id; keys and their uniqueness are not modelled.
- Lookups of field names and Jira categories through the JavaScript prototype; both tables are finite maps.
- Case folding and upper-casing outside ASCII, and splitting of surrogate pairs.
- Error texts, log lines and the events that listeners other than the modelled ones receive.
- Network, file and mail I/O, cryptography, the webhook address filter, and the HTTP, ORM and UI code around the services.
- Comment translation, digests, notifications, saved views, labels, canned responses, the status page, percentile reports, migrations and the front end: they would add only easy members.
