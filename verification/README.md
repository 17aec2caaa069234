# Verified models of dbmcp's core algorithms

A Dafny model of the parts of the repository whose correctness cannot be read off one branch, with proofs of what they
are for. `dafny verify dfyconfig.toml` checks the whole project; files group by prefix:

- `lineage_*` - column lineage of SQL queries: the resolver over queries, CTEs, derived tables, joins, set operations,
  `VALUES` and scalar subqueries (rules and imperative form), a filter-free evaluator, and the theorems that tie the two
  together: soundness, exactness (`lineage_exact`; `FreeEngines.SpellingIsFree` gives an engine as it assumes), progress,
  CTE inlining, transparent guards and the origin of sources; and exactly which queries are accepted
  (`lineage_headings`, `lineage_runs`, `lineage_acceptance`, `lineage_errors`).
- `template_*` and `dotenv_*` - `${}` substitution with greedy brace matching against a plain scanner and against the
  meaning of its pieces (`template_printing`), and the env-file parser against printers of one form
  (`dotenv_laws`) and of every statement form (`dotenv_printing` to `dotenv_reading`).
- `pii_overlap`, `pii_anonymizer`, `pii_leaf`, `pii_walk*`, `pii_words`, `pii_ner*` - overlap resolution, the rewriter with
  its audit trail, what becomes of one text, the explicit-stack walk over JSON payloads with deferred recognition, and the
  batched decoding of the recognition model, down to the logits of each token.
- `ssh_*` - the host pattern matcher that backtracks to the latest star only, the `known_hosts` verdict told from the
  file's lines, and what appending an entry does to later lookups.
- `settings_*` - the layered settings: precedence of process, env files and config files, which files are opened, the
  check of every value of every source, and every error it can report.
- `decimal_*` - exact numbers as JSON, with binary64 rounding defined as "a nearest number of at most 53 bits".
- `listing` - cursor pagination with a one-row lookahead.
- `common`, `sorting` - option and result types, text helpers, stable sorting.

In each component a `...Rules`-style module says what is computed as functions on values, laws are lemmas about those
functions, and the loops, buffers, stacks and classes of the program are methods proved to compute the same. Text is
`seq<char>`; where offsets count bytes (the PII rewriter) it is `seq<bv8>`. Libraries the program calls (tokenizer, model
session, YAML reader, key format, operators, hashes) are function parameters, and a lemma that needs something of them
names it in a predicate: `Aligned` and `RowLocal` for the recognition model, `ReadsBack` for the key format, `Faithful`
for the conversion to binary64, `TextIsSet` for the settings' value check (an empty text is the only environment text a
check may treat as unset, `crates/config/src/env.rs:134-136`).

Where the code and what one might expect of it differ, the model follows the code:

- All names of one `WITH` are visible together, a CTE body is resolved under the CTEs at its place of use, and a qualified
  table name whose last part is a CTE name is read as that CTE (`crates/sql-lineage/src/resolve.rs:57-63, 202-216`). The
  evaluator and the inlining theorem use this reading; SQL's lexical scoping is not claimed. CTEs being read are told apart
  by name, so one that rebinds its own name is refused as circular (`ErrorMeaning.RebindingIsCircular`).
- An unquoted value starts behind the blanks after the sign, so in `KEY= # note` the note is the value
  (`crates/config/src/dotenv.rs:99, 208-216`).
- The comment on `F64_SAFE_DIGITS` (`crates/sqlx-json/src/cell.rs:74-79`) promises a clean round trip for every value of at
  most 15 digits. That holds from `10^-309` on. Below, binary64 steps are wider than the decimal grid: every number emitted
  there has a twin (`DecimalPrecision.Twin`), `10^-310` for one, and `DecimalEdge.LosslessExactly` is the exact condition.
- A table name is compared with the CTE names by its last part, which counts as empty unless it is an identifier, but is
  reported by its last identifier (`crates/sql-lineage/src/resolve.rs:266-293`). So a name ending in a function part is
  read past a CTE of its own name (`ResolveOrigin.UnsafeNameIsShadowed`, `ResolveOrigin.ShadowedExample`), and
  `ResolveOrigin.QueryOrigin` asks for names that do not.
- Comparing a candidate span with the last survivor only would be enough for non-empty spans
  (`SpanOverlap.WalkIsLastWalk`) but not in general (`SpanOverlap.EmptySpansNeedTheFullScan`).
- A page size of zero never advances (`Listing.EmptyPagesNeverAdvance`); with size one or more every list is read.

## Model

| member | source | states |
|---|---|---|
| LineageSoundness.LineageIsSound | crates/sql-lineage/src/resolve.rs:37-39 | for a query that resolves, output column i has the same name and the same cells on any two databases of one shape that agree on the sources listed for column i, at every nesting of CTEs, derived tables, joins, unions, VALUES and subqueries |
| LineageSoundness.QuerySound | crates/sql-lineage/src/resolve.rs:48-64 | the same inside any CTE environment, set of active CTEs and depth, for all columns at once |
| LineageSoundness.ColumnSound | crates/sql-lineage/src/scope.rs:79-122 | a reference that resolves denotes the same relation and column in both databases, and its cells depend only on the reported sources, qualified or not |
| LineageProgress.ResolvedEvaluates | crates/sql-lineage/src/resolve.rs:48-234 | a query of the fragment that resolves evaluates on every database having the tables and columns it mentions, and its result has exactly the reported columns, in number and by name |
| LineageProgress.ColumnEvaluates | crates/sql-lineage/src/scope.rs:79-122 | a column reference the resolver accepts denotes exactly one column when the query runs |
| LineageExactness.EverySourceShows | crates/sql-lineage/src/resolve.rs:37-39 | no source is listed too many: under an engine that forgets nothing, with rows in every table and VALUES, a database that differs in each row of a source of column i gives a different column i |
| LineageExactness.QueryShows | crates/sql-lineage/src/resolve.rs:48-64 | the same inside any CTE environment, set of active CTEs and depth, for all columns at once |
| ErrorMeaning.ResolvesExactly | crates/sql-lineage/src/resolve.rs:37-234 | a query resolves if and only if no chain of nested queries is longer than 64, none reads a CTE while it is being read, and in every query reached each reference and wildcard denotes columns; the columns then bear exactly the names of the query's heading |
| ErrorMeaning.CircularMeans | crates/sql-lineage/src/resolve.rs:209-213 | a circular reference comes with a chain of nested queries that reads the CTE and, in reading it, reads it again; the chain is returned |
| ErrorMeaning.DepthMeans | crates/sql-lineage/src/resolve.rs:54-56 | the depth error comes with a chain of more than 64 nested queries; the chain is returned |
| ErrorMeaning.RebindingIsCircular | crates/sql-lineage/src/resolve.rs:209-217 | CTEs being read are told apart by name alone: a concrete query that reads no query twice is refused because a CTE rebinds its own name |
| Acceptance.ColumnExactly | crates/sql-lineage/src/scope.rs:79-122 | a column reference is accepted if and only if it denotes one column among those the relations expose |
| Acceptance.WildcardExactly | crates/sql-lineage/src/scope.rs:128-134 | a wildcard is accepted if and only if no base table is in scope, and stands for all exposed names in order |
| Acceptance.QualifiedExactly | crates/sql-lineage/src/scope.rs:140-144 | a qualified wildcard is accepted if and only if the first relation of that name is no base table, and stands for its names |
| LookupLaws.RefusedBecause | crates/sql-lineage/src/scope.rs:52-122 | which error a refused column gives: unknown qualifier, a virtual relation without it, a base table beside others, no producer, or two |
| LookupLaws.LastBindingWins | crates/sql-lineage/src/resolve.rs:57-63 | a name is bound to the last WITH item that bears it, else to what it was bound to outside |
| LookupLaws.LastThreeIdentifiers | crates/sql-lineage/src/resolve.rs:277-293 | three identifiers name database, schema and table, two schema and table, one a table, and a deeper prefix is dropped |
| CteInlining.QueryInlines | crates/sql-lineage/src/resolve.rs:57-63 | replacing every CTE reference by a derived table with the same body and visible name gives the identical columns, with no CTE left in the environment |
| CteInlining.InlineQuery | crates/sql-lineage/src/resolve.rs:48-64 | the inlined query contains no WITH at any depth |
| InlinedReferences.QueryReplaced | crates/sql-lineage/src/resolve.rs:202-228 | inlining a query that resolves leaves no table factor, at any depth, that is read as a CTE of the environment or of the query: every reference has been replaced |
| InlinedMeaning.QueryMeans | crates/sql-lineage/src/resolve.rs:208-216 | the inlined query also computes the same result on every database |
| ResolveGuards.QueryGuards | crates/sql-lineage/src/resolve.rs:54-56 | success under some depth and active names gives the identical result at any smaller depth under any subset of those names |
| ResolveGuards.FactorGuards | crates/sql-lineage/src/resolve.rs:209-220 | the same for one table factor, where the active set is consulted |
| ResolveOrigin.QueryOrigin | crates/sql-lineage/src/resolve.rs:202-222 | when every table name of the query and of the CTE bodies in scope is compared under the name it is reported by, no reported source is a table whose name was bound by an enclosing WITH or by the query's own |
| ResolveOrigin.ReportedTablesAreNoCtes | crates/sql-lineage/src/resolve.rs:37-39 | the same for a top-level query and the names its own WITH binds |
| ResolveOrigin.SafeExactly | crates/sql-lineage/src/resolve.rs:266-293 | the compared name is the reported one exactly if the object name ends in an identifier or is reported under the empty name |
| ResolveOrigin.FactorShadowing | crates/sql-lineage/src/resolve.rs:208-222 | a base table's factor is reported under the name of a CTE in scope exactly if that name is bound and the object name does not end in an identifier |
| ResolveOrigin.UnsafeNameIsShadowed | crates/sql-lineage/src/resolve.rs:202-222 | every other object name has a query that resolves to a source of just the name its WITH binds |
| ResolveOrigin.ShadowedExample | crates/sql-lineage/src/resolve.rs:266-293 | a concrete such query: an identifier followed by a function part is compared as the empty name and reported as the identifier |
| ScopeRules.CandidatesCountProducers | crates/sql-lineage/src/scope.rs:92-121 | exactly one candidate means exactly one relation produces the column, and the sources are those of that relation |
| LineageScope.Scope.ResolveColumn | crates/sql-lineage/src/scope.rs:79-122 | the candidate loop over the relations gives the declared resolution of a column |
| LineageScope.Scope.ExpandWildcard | crates/sql-lineage/src/scope.rs:128-134 | the expansion loop gives the columns of all relations in order, or the first base table's error |
| LineageScope.Scope.ExpandQualifiedWildcard | crates/sql-lineage/src/scope.rs:140-144 | the first relation of that name decides: a virtual one gives its columns, a base table its error; without one the table is unknown |
| VisitorEvents.VisitCollects | crates/sql-lineage/src/resolve.rs:308-385 | running the visitor's callbacks over an expression collects exactly the sources of the expression, or stops at its first error |
| VisitorEvents.InsideIsInert | crates/sql-lineage/src/resolve.rs:365-368 | inside a subquery no callback changes the collected sources |
| VisitorEvents.QueryBalanced | crates/sql-lineage/src/resolve.rs:356-363 | a query's events raise and lower the nesting counter in balance and never below where they started |
| LineageResolver.Resolve | crates/sql-lineage/src/resolve.rs:37-39 | the program computes the resolution the rules define |
| LineageResolver.ResolveQueryIn | crates/sql-lineage/src/resolve.rs:48-64 | depth guard and insertion of all CTEs of one WITH, then the body |
| LineageResolver.ResolveSetExpr | crates/sql-lineage/src/resolve.rs:67-92 | the union loop pairs columns by position |
| LineageResolver.ResolveValues | crates/sql-lineage/src/resolve.rs:99-116 | the nested row loops extend each position's sources in place |
| LineageResolver.ResolveSelect | crates/sql-lineage/src/resolve.rs:119-153 | the projection loop pushes each item's columns with their positions |
| LineageResolver.AddTableFactor | crates/sql-lineage/src/resolve.rs:194-234 | what one table factor pushes on the scope, and the circular-reference error |
| LineageResolver.CollectSources | crates/sql-lineage/src/resolve.rs:308-327 | the sources of one expression, by a visitor with a nesting counter |
| LineageResolver.ExprCollector.PreVisitQuery | crates/sql-lineage/src/resolve.rs:345-358 | entering a subquery adds its output sources once, at the outermost level only |
| LineageResolver.ExprCollector.PreVisitExpr | crates/sql-lineage/src/resolve.rs:365-384 | a column outside any subquery adds its sources or stops with its error |
| TemplatePrinting.PrintedMeans | crates/config/src/template.rs:46-166 | substituting the printed form of any list of pieces (text, dollars, plain and braced references, the six operators with nested pieces, braces, malformed references) gives what the pieces mean by the lookup: the value of a set variable, the empty text and a note for an unset one, and each operator's choice for unset, empty and set |
| TemplatePrinting.PrintedScans | crates/config/src/template.rs:46-81 | the same in front of any text the pieces can be told from |
| TemplatePrinting.ChoiceReads | crates/config/src/template.rs:99-122 | an operator reference is cut into its own name, sign and text, whatever follows it on the line |
| TemplatePrinting.NoneBalances | crates/config/src/template.rs:108-120 | with no brace balanced, the operator's text runs to the last brace of the line |
| TemplatePrinting.BrokenReads | crates/config/src/template.rs:84-106 | a dollar and an open brace without a name, or with one that neither a brace nor a closed operator follows, are malformed |
| TemplateLaws.SubstituteIsScan | crates/config/src/template.rs:46-130 | taking the last brace on the line, splitting at the first balanced one and substituting the leftover again gives the value, first error and unset names of the left-to-right scanner |
| TemplateLaws.SubstituteSplits | crates/config/src/template.rs:46-82 | a prefix that ends in a newline is substituted separately: values concatenate, the first error wins, unset names append |
| TemplateLaws.SubstituteIsLocal | crates/config/src/template.rs:46-166 | two lookups that agree on every name occurring in the template give the same outcome |
| TemplateLaws.DoubledIsLiteral | crates/config/src/template.rs:57-61 | with every dollar doubled, substitution is the identity under every lookup |
| TemplateLaws.NothingAfterLast | crates/config/src/template.rs:99-130 | behind the brace an operator matched greedily there is no other brace on the line |
| TemplateEngine.Substitute | crates/config/src/template.rs:46-82 | the loop over indices and an output buffer gives the declared outcome and appends exactly its unset names |
| TemplateEngine.Braced | crates/config/src/template.rs:84-130 | one braced reference, including the mutual recursion into its argument |
| TemplateEngine.Apply | crates/config/src/template.rs:133-158 | which operator takes its text, the value or the error, and when the text is substituted at all |
| TemplateEngine.FirstBraceClosing | crates/config/src/template.rs:169-187 | the depth-counting loop finds the first brace that closes the reference |
| DotenvReading.PrintedLinesRead | crates/config/src/dotenv.rs:57-136 | a file printed from any list of lines (blank and comment lines; assignments with or without export, with = or :, blanks around it, unquoted, single-quoted or double-quoted, with a trailing comment; bare keys; garbled and two-word keys; an open quote) parses to what the lines mean one after the other: entries with their lines and warnings, or all errors in order |
| DotenvReading.LineReads | crates/config/src/dotenv.rs:68-126 | the same for one line at any position and in any state |
| DotenvValues.ValueExtracts | crates/config/src/dotenv.rs:208-246 | a value in each form is extracted as the text it stands for, and exactly its own characters are consumed |
| DotenvValues.UnitsExpand | crates/config/src/dotenv.rs:249-289 | each escape of double quotes stands for its character, octal escapes included, and everything else for itself |
| DotenvStatements.InheritRead | crates/config/src/dotenv.rs:92-98 | a bare key takes the process value, else this file's earlier value, else the earlier files' |
| DotenvLaws.PrintedFileReadsBack | crates/config/src/dotenv.rs:57-136 | printing any list of valid keys with arbitrary values and parsing it gives each key's last value and its line number, without errors or warnings, whatever the process and earlier files hold |
| DotenvLaws.ParseReads | crates/config/src/dotenv.rs:57-136 | the same from the middle of a file, for any state reached so far |
| DotenvLaws.ExpandUnquoted | crates/config/src/dotenv.rs:249-274 | escape expansion turns an escaped value into the value with doubled dollars, which substitution then makes literal |
| DotenvLaws.QuotedReads | crates/config/src/dotenv.rs:208-243 | quote extraction ends exactly at the closing quote of an escaped value and keeps what expansion needs |
| DotenvParser.Parse | crates/config/src/dotenv.rs:57-136 | the statement loop gives the declared entries and warnings, or all errors |
| DotenvParser.StatementStart | crates/config/src/dotenv.rs:146-155 | skips white space and comment lines to the next statement |
| DotenvParser.ReadValue | crates/config/src/dotenv.rs:208-243 | the value text, whether it is substituted, and how much was consumed, or the unterminated quote |
| DotenvParser.ExpandEscapes | crates/config/src/dotenv.rs:249-274 | the escape loop with its octal look-ahead gives the declared expansion |
| DotenvParser.Collected.TakeStatement | crates/config/src/dotenv.rs:68-126 | one statement updates entries, errors and warnings and says where to go on |
| SpanOverlap.ResolveIsFinal | crates/pii/src/overlap.rs:19-45 | the survivors are in start order and pairwise disjoint, a subsequence of the stably sorted input, and resolving them again changes nothing |
| SpanOverlap.TwoSpans | crates/pii/src/overlap.rs:19-94 | of two overlapping spans exactly one survives: the one around the other of its type, else the higher score, else the longer, else the one that starts or was found first |
| SpanOverlap.BeatsMeans | crates/pii/src/overlap.rs:64-94 | beating, said on type, extent and score, is winning the comparison in whichever order the two come |
| SpanOverlap.SortedByStart | crates/pii/src/overlap.rs:23-25 | of two sorted spans the first starts earlier, or at the same place with at least the other's score |
| SpanOverlap.WalkIsLastWalk | crates/pii/src/overlap.rs:26-43 | for non-empty spans, scanning every survivor equals a fold that looks at the last survivor only |
| SpanOverlap.EmptySpansNeedTheFullScan | crates/pii/src/overlap.rs:26-43 | with an empty span in between that equality fails: a concrete input on which the shorter scan would keep two overlapping spans |
| SpanOverlap.NoLostEviction | crates/pii/src/overlap.rs:28-42 | no candidate ever evicts a survivor and is dropped itself |
| SpanOverlap.NothingVanishes | crates/pii/src/overlap.rs:26-43 | every input span is a survivor or is linked to one by a chain of overlapping input spans, each beating the one before; the chain is returned |
| SpanOverlap.UnrivalledSurvives | crates/pii/src/overlap.rs:64-94 | a span scoring strictly above all it overlaps and covered by no other span of its type always survives |
| SpanOverlap.StableSortSorts | crates/pii/src/overlap.rs:23-25 | the sort orders by start and falling score, keeps every span and never reorders spans of one start and score |
| StableSorting.SortBySorts | crates/pii/src/overlap.rs:23-25 | sorting by any strict weak order sorts, permutes and is stable |
| OverlapEngine.Resolve | crates/pii/src/overlap.rs:19-45 | sorting and the retain loop with its keep flag give the declared survivors |
| OverlapEngine.RetainSurvivors | crates/pii/src/overlap.rs:28-42 | one candidate against all survivors: who stays and whether the candidate is kept out |
| AnonymizerRules.AnonymizationInverts | crates/pii/src/anonymizer.rs:70-122 | substituting the original slices back at the recorded ranges recovers the input |
| AnonymizerRules.AuditTrailIsExact | crates/pii/src/anonymizer.rs:106-114 | each recorded new range slices out exactly its rewrite, and both coordinate systems are ordered and disjoint with equal text in between |
| AnonymizerRules.AnonymizeWeaves | crates/pii/src/anonymizer.rs:83-116 | the new text is the weave of untouched gaps and operator outputs |
| AnonymizerRules.SurvivorsAreRewritten | crates/pii/src/anonymizer.rs:83-97 | if every recognised span fits the text, exactly the survivors of overlap resolution are rewritten, none is skipped |
| Anonymizer.Anonymize | crates/pii/src/anonymizer.rs:70-122 | the cursor loop computes the declared text and operations |
| LeafLaws.MergeRewrites | crates/pii/src/redact.rs:448-472 | one text with a model: only pattern spans and model spans at or above the floor are rewritten; each of these leads by beating spans to one that is rewritten if it fits; one that outscores all others that count is always rewritten |
| LeafLaws.PatternsRewrite | crates/pii/src/redact.rs:448-458 | the same without a model |
| KeyWordLaws.KeyWordsAreParts | crates/pii/src/words.rs:54-62 | the words of a key are its runs of ASCII letters and digits, in lower case and in order |
| WalkRules.VisitsAreLeaves | crates/pii/src/redact.rs:208-251 | the visits are exactly the string leaves, each with the key words from the root to it; array positions add none |
| WalkRules.VisitsEachLeaf | crates/pii/src/redact.rs:208-251 | each leaf is visited exactly as often as it occurs |
| WalkRules.CountsOperations | crates/pii/src/redact.rs:453-456 | the total and the counter of each entity grow by exactly the number of operations and of operations of that entity |
| WalkRules.UntouchedIsVerbatim | crates/pii/src/redact.rs:449-452 | a leaf without operations is left exactly as it was |
| WalkRules.MergeIsResolved | crates/pii/src/redact.rs:464-472 | merged spans are already resolved when the rewriter resolves them again |
| RedactionOutcome.InlineOutcome | crates/pii/src/redact.rs:223-236 | without a model every visited text is rewritten by its own pattern spans, every other text is unchanged, and the counters count exactly the leaves and operations |
| RedactionOutcome.DeferOutcome | crates/pii/src/redact.rs:227-232 | with a model the walk leaves every leaf empty and every moved-out text in visiting order |
| RedactionOutcome.MergeOutcome | crates/pii/src/redact.rs:256-275 | the merge pass restores every text and rewrites it by its merged spans; one without operations is as before |
| Redactor.Walk | crates/pii/src/redact.rs:206-251 | the explicit stack with one shared path visits the leaves in the declared order and with their paths, and the path, which is returned, is empty at the end |
| Redactor.Enter | crates/pii/src/redact.rs:223-250 | one value contributes its own leaf, or the frames that stand for its children's visits |
| Redactor.PopFrame | crates/pii/src/redact.rs:209-222 | popping a frame loses no visit and balances the path |
| Redactor.PushKeyWords | crates/pii/src/words.rs:54-62 | pushes exactly the lowercase words of the key and returns their number |
| Redactor.ApplySpans | crates/pii/src/redact.rs:448-458 | one leaf rewritten in place, with its counters |
| Redactor.MergePass | crates/pii/src/redact.rs:262-272 | all deferred leaves restored and rewritten in order |
| Redactor.Apply | crates/pii/src/redact.rs:191-284 | on success every leaf is rewritten by what the patterns and the model found in it, as its own part of the audit records, every other text is unchanged and the counters are those of the audit; on failure the model failed, the leaves are empty and every other text is unchanged |
| NerTokens.DecodedExactly | crates/pii/src/ner.rs:563-597 | a span is decoded from a row if and only if it is that of a maximal run of words of one entity, where a word is labelled by the largest of its first token's own logits and the span runs from the first to the last token with the largest confidence of any token in it |
| NerTokens.RunIsLocal | crates/pii/src/ner.rs:563-597 | which span a run of tokens gives depends on the logits of its own tokens, of the word before it and of the token behind it only |
| NerTexts.TextSpansMean | crates/pii/src/ner.rs:428-464 | every span of a text's result is that of a run of tokens in one of its windows, and each such run's span is in the result or leads to one that is by spans that each beat the one before |
| NerTexts.WindowsAre | crates/pii/src/ner.rs:434-451 | the windows of a text are its main encoding and all overflowing ones that have tokens |
| NerTexts.BatchedCells | crates/pii/src/ner.rs:485-507 | each real token is shown with its mask, and its type where asked for, at its place in the tensors; the rest is padding, masked out |
| NerDecoding.SpansAreRuns | crates/pii/src/ner.rs:221-276 | the decoded spans are exactly those of the maximal begin/inside runs whose maximum score meets the threshold and whose extent is not empty |
| NerDecoding.WindowSpansAreOrdered | crates/pii/src/ner.rs:192-249 | with ordered, disjoint word tokens a window decodes to ordered, disjoint, non-empty spans |
| NerDecoding.WordsOrdered | crates/pii/src/ner.rs:192-214 | folding subwords into words keeps ordered tokens ordered |
| NerBatching.RowSpansAreOrdered | crates/pii/src/ner.rs:563-597 | whatever the logits, a window with ordered offsets gives ordered, disjoint spans of allowed entities at or above the threshold |
| NerBatching.WindowsRoute | crates/pii/src/ner.rs:434-451 | over all windows of all texts each text is routed exactly the spans of its own windows, in order |
| NerBatching.RoutedConcat | crates/pii/src/ner.rs:453-455 | routing a list of windows in chunks is routing the whole list |
| NerEngine.AggregateWords | crates/pii/src/ner.rs:192-214 | the loop over tokens with a current word gives one tag per word |
| NerEngine.DecodeSpans | crates/pii/src/ner.rs:221-276 | the loop with an open span gives the declared spans |
| NerEngine.SoftmaxArgmax | crates/pii/src/ner.rs:127-142 | the first largest logit and its probability |
| NerEngine.DecodeRow | crates/pii/src/ner.rs:563-597 | one row of logits decoded into spans |
| NerEngine.Stacked | crates/pii/src/ner.rs:485-507 | the padded rows, written at multiples of the row length into a buffer of padding |
| NerEngine.RunChunk | crates/pii/src/ner.rs:471-556 | one chunk appends to each text exactly the spans of its windows in the chunk |
| NerEngine.Analyze | crates/pii/src/ner.rs:411-413 | a text alone gives what it gives in any batch that succeeds, whatever its neighbours, or the model failed |
| NerEngine.AnalyzeBatch | crates/pii/src/ner.rs:428-464 | every text gets what it gives alone, for every chunking and every set of neighbours, or an error of the tokenizer or the model |
| GlobMeaning.MatchesExactly | crates/ssh/src/known_hosts.rs:230-257 | a pattern matches exactly the texts it can be laid along from end to end: a star over any stretch, a question mark over one character, others over themselves |
| VerdictLaws.HostsMatchExactly | crates/ssh/src/known_hosts.rs:205-228 | a host is named by some lowercase pattern and by none behind an exclamation mark; hashed names by the keyed hash |
| VerdictLaws.VerdictExactly | crates/ssh/src/known_hosts.rs:93-113 | revoked at the first line that revokes the key for the host, else trusted if an unmarked line has it, else changed at the first unmarked line with another key, else unknown |
| VerdictLaws.PrintedHostsRead | crates/ssh/src/known_hosts.rs:70-87 | a file is read line by line with any white space around the fields; blank and comment lines and refused entries are skipped, and each entry carries the number of its line |
| Glob.Run | crates/ssh/src/known_hosts.rs:231-257 | backtracking to the latest star only decides the recursive definition of the pattern language for all patterns and texts, and terminates |
| GlobRules.LaterStarSuffices | crates/ssh/src/known_hosts.rs:238-241 | once a second star is reached the first need never be retried |
| GlobRules.StarMovesOn | crates/ssh/src/known_hosts.rs:246-252 | a misfit behind a star means the star takes one more character |
| GlobRules.StarMatchesSuffixes | crates/ssh/src/known_hosts.rs:230-257 | a star followed by a rest matches exactly the texts that end in a match of the rest |
| GlobRules.PlainMatchesItself | crates/ssh/src/known_hosts.rs:230-257 | a pattern without pattern characters matches itself alone |
| KnownHostsFile.MatchHosts | crates/ssh/src/known_hosts.rs:205-228 | some pattern matches and no negated one does, hashed names by their keyed hash |
| KnownHostsLaws.VerdictMeans | crates/ssh/src/known_hosts.rs:93-113 | revocation wins over a match, a match over a change, and the reported line is the earliest of its kind |
| KnownHostsLaws.OrderDoesNotMatter | crates/ssh/src/known_hosts.rs:93-113 | the kind of verdict depends on which entries there are, not on their order or line numbers |
| KnownHostsLaws.ForHostKeepsVerdict | crates/ssh/src/known_hosts.rs:116-120 | keeping only the host's entries first does not change any verdict for it |
| KnownHostsLaws.AppendedParses | crates/ssh/src/known_hosts.rs:161-190 | appending an entry to any text parses as the old entries with their line numbers plus the new one |
| KnownHostsLaws.AppendedVerdicts | crates/ssh/src/known_hosts.rs:161-199 | afterwards the host's key matches unless it is revoked, the host's other keys count as changed, and every other host's verdicts are what they were |
| KnownHostsLaws.ParsedAscends | crates/ssh/src/known_hosts.rs:70-87 | parsed entries carry strictly growing line numbers |
| KnownHostsLaws.PreferredReorders | crates/ssh/src/known_hosts.rs:143-149 | the preferred list is a permutation of the default one: recorded algorithms before all others, each kind in its old order |
| KnownHostsLaws.RecordedKeyIsOffered | crates/ssh/src/known_hosts.rs:123-149 | if a key would match and its algorithm is offered at all, the algorithm offered first is a recorded one |
| KnownHostsFile.KnownHosts.Parse | crates/ssh/src/known_hosts.rs:70-87 | the line loop keeps exactly the readable entries with their numbers |
| KnownHostsFile.KnownHosts.Lookup | crates/ssh/src/known_hosts.rs:93-113 | the loop with its early return and two flags gives the declared verdict |
| KnownHostsFile.KnownHosts.KeepHost | crates/ssh/src/known_hosts.rs:116-120 | retains exactly the host's entries, and its verdicts stay |
| KnownHostsFile.File.Append | crates/ssh/src/known_hosts.rs:161-190 | the file's new content, and what it parses as |
| SourceLaws.ErrorsExactly | crates/config/src/settings/mod.rs:121-155 | an error is reported if and only if it is one of the structure errors or a value of some source of some setting fails with just that error, path and place |
| SourceLaws.ReportedInOrder | crates/config/src/settings/mod.rs:51-61 | config files before env files before the process, files by list position, and within a file by line and column |
| SourceLaws.LeafExactly | crates/config/src/settings/files.rs:117-122 | a dotted path finds exactly the node its keys lead to, through mappings only |
| SourceLaws.EveryPathIsDotted | crates/config/src/settings/files.rs:117-122 | every path is dotted from one list of keys without dots |
| SourceLaws.PickedFiles | crates/config/src/settings/pick.rs:58-107 | flags replace the list; a list that is not blank gives its trimmed entries against its own base; empty ones are errors; each file is read at its last place |
| SourceLaws.EnvFileReads | crates/config/src/settings/layers.rs:50-57 | a name in an env file reads the process, then the file so far, then the last earlier file that sets it |
| SourceLaws.VariableReads | crates/config/src/settings/layers.rs:65-70 | a variable in a config file reads the process, then the last env file that sets it, where an empty value counts |
| SourceLaws.EnvFileIsItsLines | crates/config/src/settings/layers.rs:41-60 | an env file yields its lines' entries, or all their errors |
| SourceLaws.ConfigFilesAreRead | crates/config/src/settings/files.rs:42-85 | each config file is what the reader makes of its text; only the last one read has structure errors, and a failure is that of the next one |
| SourceLaws.ConfigListIs | crates/config/src/settings/mod.rs:101-106 | the config files are named by the process, else by the last env file that names any, from its own directory |
| SettingsEngine.CheckedMeans | crates/config/src/settings/mod.rs:113-155 | the check succeeds exactly when the structure is sound and every set value of every source passes; then each setting holds what the precedence names; otherwise all errors are reported, sorted |
| SettingsLaws.WinnerIsPrecedence | crates/config/src/settings/mod.rs:17-19 | the winner is the non-empty process value, else what the last env file setting the name says (empty clears), else the last config file with a value |
| SettingsLaws.NoErrorsExactly | crates/config/src/settings/mod.rs:121-155 | no errors if and only if the structure is sound and every value of every source passes, losing or not |
| SettingsLaws.EnvFileWinner | crates/config/src/settings/layers.rs:79-93 | among the env files only the last one setting the name may win, and not if it sets it empty |
| SettingsLaws.ConfigWinner | crates/config/src/settings/files.rs:97-108 | the last config file whose value is not unset wins |
| SettingsLaws.ErrorsAreSorted | crates/config/src/settings/mod.rs:55-61 | the reported errors are a permutation of all errors in rank order: config files, env files, process, by list position and place |
| SettingsLaws.LastPlacesKeepWinners | crates/config/src/settings/pick.rs:82-90 | reading a repeated config file only at its last place changes no setting's winner |
| SettingsFiles.CollectKeepsLastPlaces | crates/config/src/settings/pick.rs:82-90 | reversing, collecting into an insertion-ordered set and reversing again keeps each file at its last place |
| SettingsFiles.LastPlacesFacts | crates/config/src/settings/pick.rs:49-51 | no file is read twice, exactly the named ones are read, and the last one stays last |
| SettingsFiles.EnvFilesInOrder | crates/config/src/settings/layers.rs:41-60 | each env file is parsed against exactly the files before it, up to the first that fails |
| SettingsFiles.ConfigFilesInOrder | crates/config/src/settings/files.rs:42-85 | config files are read in order; only the last one read can be broken and the rest are never opened |
| SettingsEngine.Check | crates/config/src/settings/mod.rs:121-155 | the loops over settings and candidates give the winners and all errors |
| SettingsEngine.CheckSetting | crates/config/src/settings/mod.rs:135-148 | every candidate is checked and the first eligible value is kept |
| SettingsEngine.ReadEnvFiles | crates/config/src/settings/layers.rs:41-60 | the layers read, and exactly which files were opened |
| SettingsEngine.ReadConfigFiles | crates/config/src/settings/files.rs:42-85 | the config files read, and exactly which files were opened |
| SettingsEngine.Load | crates/config/src/settings/mod.rs:96-111 | the whole load: picks, reads and the check in sequence, with the first failure of each stage |
| DecimalEdge.LosslessExactly | crates/sqlx-json/src/cell.rs:74-119 | what a decimal is emitted as determines the number if and only if it is not within the digit gate with a size above half the smallest binary64 step and below 10^-309, given a correctly rounding conversion |
| DecimalEdge.NumberExactly | crates/sqlx-json/src/cell.rs:97-113 | below 10^-309 a decimal is emitted as a number exactly if it is within the digit gate and above half a step |
| DecimalEdge.LossyExample | crates/sqlx-json/src/cell.rs:74-79 | 10^-310 is emitted as a number that another decimal is emitted as, too |
| DecimalEdge.FaithfulExists | crates/sqlx-json/src/cell.rs:104-113 | conversions that round to nearest as assumed exist; one is returned |
| DecimalEmission.FractionExactly | crates/sqlx-json/src/cell.rs:97-113 | a fraction is emitted as a number if and only if it can be written with at most 15 digits and is more than half the smallest binary64 step from zero; the number is a nearest one, and equal if the fraction is one |
| DecimalEmission.GateExactly | crates/sqlx-json/src/cell.rs:97-102 | the digit gate lets a fraction pass exactly if it can be written with fewer than 16 digits |
| DecimalEmission.TextExactly | crates/sqlx-json/src/cell.rs:115-119 | what is not emitted as a number is the text of the value's one normal form |
| DecimalEmission.OneAndAHalf | crates/sqlx-json/src/cell.rs:97-113 | one and a half is emitted as a number |
| DecimalEmission.LargeUnsigned | crates/sqlx-json/src/cell.rs:52-60 | an unsigned cell beyond 64 signed bits is the text of its digits |
| DecimalPrecision.NumberFromEdge | crates/sqlx-json/src/cell.rs:97-113 | no two different decimals of at least 10^-309 that pass the 15-digit gate are emitted as the same number |
| DecimalPrecision.Twin | crates/sqlx-json/src/cell.rs:80-113 | below 10^-309 every emitted decimal has a neighbour emitted as the same number; the neighbour is returned |
| DecimalLaws.ShapeDependsOnValue | crates/sqlx-json/src/cell.rs:89-118 | every way of writing a number as mantissa and scale is emitted alike |
| DecimalLaws.IntegersAreExact | crates/sqlx-json/src/cell.rs:91-95 | an integer is emitted as a JSON integer if it fits 64 bits and as text otherwise, never as a floating-point number |
| DecimalPrecision.SafeIntegerFits | crates/sqlx-json/src/cell.rs:97-102 | an integer that passes the digit gate fits 64 bits |
| Binary64.RelativeError | crates/sqlx-json/src/cell.rs:74-80 | from 2^52 steps on, without an upper bound, rounding to nearest is off by at most 2^-53 of the value |
| Binary64.NearestExists | crates/sqlx-json/src/cell.rs:103-105 | every real has a nearest number of at most 53 bits; it is returned |
| DecimalLaws.SameIntegerSameShape | crates/sqlx-json/src/cell.rs:52-60 | signed, unsigned and decimal cells holding one integer are emitted alike |
| Listing.ListIsRead | crates/server/src/listing.rs:91-145 | following cursors from the first page reads the whole list in max(1, ceil(n/size)) pages |
| Listing.PagesTile | crates/server/src/listing.rs:111-145 | from any cursor the pages concatenate to the rest of the list, full but for the last, which is not empty unless the rest is |
| Listing.PageIsSlice | crates/server/src/listing.rs:98-121 | a page is the slice its cursor names and the next cursor is where it ends, so nothing saturates |
| Listing.EmptyPagesNeverAdvance | crates/server/src/listing.rs:112-121 | with page size zero the next cursor is the one it came from |

## Left out

- LineageSoundness.LineageIsSound: covers queries without filters, grouping, ordering and correlated subqueries; UNION ALL is the only set operation evaluated, and table functions and other factors the resolver skips are outside the evaluator.
- LineageExactness.EverySourceShows: is about the same fragment, and needs rows in every table and `VALUES`, because a column read from no row depends on nothing.
- TemplatePrinting.PrintedMeans: an operator's own text is made of pieces that close the braces they open on its line, or of pieces that open one and close none; other unbalanced texts are covered by the scanner law only.
- DotenvReading.PrintedLinesRead: a value that is empty has no comment behind it (a `#` there starts the value), and a key spelled `export` needs its own `export` in front.
- LineageProgress.ResolvedEvaluates: asks that the database has the mentioned tables and columns, that unions have equal arities and that `VALUES` rows are equally long, which the resolver does not check.
- NerEngine.AnalyzeBatch: assumes the model's logits for a row depend on that row's real tokens only; floating-point differences between batch shapes are not modelled.
- DecimalEdge.LosslessExactly: assumes the library converts to a nearest binary64 number; ties may go either way.
- KnownHostsLaws.AppendedVerdicts: assumes the key format reads back what it writes for plain host names.
- SettingsLaws.LastPlacesKeepWinners: is about config files; a repeated env file also changes what later `${}` references see.
- SQL parsing, the spelling of reported names (comparison keys are case-folded), and lineage of write statements.
- Offsets in templates and env files count characters, not bytes; all delimiters are ASCII.
- Order of env-file keys, file paths in messages, rendered error texts and warnings of whole loads; errors are data.
- Letters beyond ASCII in env-file keys are given by a predicate.
- Scores are reals; NaN and infinities do not occur. Softmax is a function parameter.
- JSON string leaves are slots in an array, which stands for the exclusive references the walk holds.
- Recognisers, anonymisation operators, context boosting, the tokenizer and the model session are function parameters.
- Hashed host names and key parsing are function parameters; file permissions, directories and I/O errors of appending are not modelled.
- YAML reading, interpolation of trees, schema validation and the value checks are function parameters; path resolution is one too.
- Scales and digit counts of decimals are unbounded; floating-point, temporal, text and binary cells are direct conversions.
- Cursor encoding, HTTP and stdio serving, connection handling, tunnels, tracing, panics and async scheduling.
