# A verified model of the message analysis engine

The engine reads a draft message, compares it with configured rules and with an index of the
history of every target chat, and reports a risk per chat and overall. This project models its
stateful core and its text functions in Dafny and proves what they promise over all inputs, all
runs and all interleavings. `dafny verify dfyconfig.toml` checks everything.

Code that updates fields is a class or a method with loops, proved against a specification
function; the properties are lemmas about those functions. Concurrency is a state machine whose
atomic steps are the database sessions, lock sections and gateway calls of the source. Unicode
functions, regex search, edit similarity, the message search and the clock are parameters
(fields of `Lexicon`, `Unicode`, `Matcher`, `SearchSettings`, arguments of the steps).

| module | models |
|---|---|
| `Tokenize`, `Normalize`, `TextTransform`, `Formatters` | app/analysis/tokenize.py, app/analysis/normalize.py, app/bot/handlers/text_transform.py, `format_evidence` |
| `IndexStore`, `Indexer`, `IndexRuns` | the tables of the history index, app/history/indexer.py, and several sync jobs with crashes |
| `Coverage`, `Searcher` | app/history/coverage.py, app/history/searcher.py |
| `CompileCache`, `RuleEngine` | app/rules/engine.py with app/analysis/fuzzy.py |
| `Scoring`, `Ranking`, `Findings`, `Pipeline` | app/analysis/scoring.py, app/analysis/pipeline.py |
| `Lifecycle` | app/services/analysis_service.py |
| `CallGate` | rate limiting and retries of app/telegram/gateway.py |
| `Authorization`, `AuthInterleaved` | app/services/authorization.py |
| `EndToEnd` | theorems across index, searcher, rules and pipeline |

## Where the code departs from its own words

Each point is a lemma; the condition is exact wherever the lemma is an equivalence.

- The compile cache promises that an edited rule is never answered with a stale compilation, and
  that holds. But an entry older than 300 seconds is neither served nor compiled again: a valid
  regex rule matches in the 300 seconds after its first lookup and never after, for the life of
  the process (`CompileCache.FreshIff`, `CompileCache.ExpiredForGood`). The README's rule that
  configured rules outweigh heuristics then lapses (`EndToEnd.ExpiredRulesLoseVerdict`).
- A recheck can be overtaken by an older execution: the request ends DONE with the result of the
  text before the edit, and the queued job skips it. That is possible exactly when an execution of
  the request is at work at the moment of the recheck (`Lifecycle.RecheckSafeIff`), and then the
  edited text is never analyzed until the next recheck (`Lifecycle.StaleStays`). A caller, who sees
  only the request's row, can rule it out exactly when the request was never rechecked and is not
  RUNNING (`Lifecycle.RowsTellIff`).
- The unique constraint that keeps the counts right also makes stored pages impossible to store
  again. A sync run that nothing else disturbs fails exactly when one of the messages it may be
  served has a term row already, or an overlong term (`Indexer.HistoryIndexer.SyncChat`); so a resync
  of an indexed chat fails exactly when one of those messages has a term
  (`Indexer.ResyncBlockedIff`). A crash between the commit of a page and the write of its cursor, a
  resync, and removing and adding a chat all leave an indexed message with terms beyond the cursor.
  If no other running job of the chat is past it, then from then on, as long as the chat shows that message, no run of any kind brings the cursor past it
  or ends as DONE (`IndexRuns.NeverPassed`, `IndexRuns.NeverDone`).
- A batch size of 0 gives an empty page, and so DONE, without indexing anything
  (`IndexStore.EmptyPageIff`); the theorems about DONE ask for a positive batch.
- A term can be found in the local index only if it is one or two lower-case words of three or
  more word characters. Findings keep punctuation and may be longer phrases, and for those the
  local count is 0 whatever is stored (`Tokenize.IndexableIff`, `Searcher.UnindexableIsNeverLocal`).
- `deobfuscate_token` is a normal form except for the Cyrillic letter be, which folds to `6` and on
  a second pass to `g` (`Normalize.DeobfuscateIdempotentIff`).
- The reason that a rule gave a finding is lost: gathering the history replaces the reason of every
  finding, a configured rule's included, by one about the history (`Findings.GatheredLaws`).
- Allow rules never suppress fuzzy matches (`RuleEngine.FuzzyIgnoresAllowRules`), and the test
  against equivalent spellings in `fuzzy_rule_matches` never applies
  (`RuleEngine.EquivalenceTestIsDead`).
- Evidence messages may exceed Telegram's 4096 characters, which the module promises they never do:
  the cut at 3900 counts neither line breaks nor the line that goes over it. They all keep the limit
  exactly when, in running totals over the lines of the report, every flush and the rest do
  (`Formatters.ReportFitsIff`); a line of at most 196 characters, less the lines before it in its
  chunk, is always safe (`Formatters.ShortLinesFit`), and a report on a message of 3600 characters
  that a rule matched as a whole is not (`Formatters.WholeMessageOverflows`).
- The invalidation after a revocation does not always suffice. Until the user changes again, a
  process may answer with an outdated authorization exactly when it holds such an entry in a cache
  that is not due for clearing, or has such a read under way (`AuthInterleaved.MayAnswerStaleIff`):
  after the invalidation that is a read under way in the process that revoked, and entries as well
  as reads in every other (`AuthInterleaved.InvalidationSufficesIff`). It passes after 60 seconds and
  the latency of one read (`AuthInterleaved.RiskPasses`).

## Model

| member | source | states |
|---|---|---|
| EndToEnd.UnseenFindingMeansAbsent | app/analysis/pipeline.py:218-235 | sync jobs go on during the analysis, the chat row is read first and each term looked up in a later world of its own: a finding reported as not observed, with coverage required, implies that when it was looked up at least nine tenths of the history known to the row were stored, its key was no index term of a stored text, and no visible message of the chat up to any cursor so far had it |
| EndToEnd.UnseenAnswerMeansAbsent | app/history/searcher.py:104-112 | the same for one answer of the searcher, with its row read in world j and its lookup in world k, not earlier |
| EndToEnd.OutcomeHistory | app/analysis/pipeline.py:156-172 | every finding in the outcome still carries the history gathered for its own term, or none |
| EndToEnd.ExpiredRulesLoseVerdict | app/rules/engine.py:43-68 | if every block rule is a regex rule first looked up more than 300 seconds ago, the overall score is at most 30 whatever the rules would match |
| Pipeline.OverallVerdict | README.md:11-14 | default weights: overall score exactly 70, HIGH, when an enabled exact, phrase or regex rule in scope matches, not covered by an allow rule, in an accessible chat whose history can be gathered; otherwise at most 30, so at most MODERATE |
| Pipeline.LiteralVerdict | app/rules/engine.py:83-111 | a literal occurrence of the folded pattern of an enabled exact or phrase rule in scope makes the overall score 70, unless an allow rule covers it |
| Pipeline.ChatStatusIff | app/analysis/pipeline.py:152-186 | a chat is not analyzed exactly when it is not accessible; it fails exactly when it is accessible and the history of one of its findings cannot be gathered; otherwise it is analyzed |
| Pipeline.RuleFiresIff | app/analysis/pipeline.py:157-159 | the rules of a chat are the global ones and its own: there is a match exactly when one of those, enabled and no allow rule, matches a fragment no such allow rule covers |
| Pipeline.OutcomeCounts | app/analysis/pipeline.py:99-103 | the chats counted as analyzed are those that are accessible and whose history can be gathered |
| Pipeline.MergedVerdict | app/analysis/pipeline.py:95-110 | the same for each chat of the outcome: 70 or at most 30 when it can be analyzed, and no score when it is inaccessible or its gathering fails |
| Pipeline.RuleFloorsVerdict | app/analysis/scoring.py:79-87 | with any weights, a rule that fires in some chat that can be analyzed keeps the overall score at the rounded, clamped floor or above |
| Pipeline.RuleFloorsChat | app/analysis/scoring.py:79-87 | the same for the chat itself, before the merge |
| Pipeline.RawHasRule | app/analysis/pipeline.py:159-163 | dropping duplicates, novelty scan, history and scoring neither lose nor invent a finding of a rule |
| Pipeline.RuleSurvives | app/analysis/pipeline.py:156-172 | an analyzed chat reports a rule finding exactly when some rule match is unsuppressed, through sort and cut |
| Pipeline.ResultIsRanked | app/analysis/pipeline.py:162-171 | every chat result: at most 8 scored findings, highest risk first; score is the head's risk (0 if none), level the level of that; other chats have neither |
| Pipeline.AttachKeepsRanking | app/analysis/pipeline.py:302-312 | scoring an attached finding again in place leaves its risk, so order, score and level stay right |
| Pipeline.SemanticKeepsRanking | app/analysis/pipeline.py:313-327 | a new semantic finding keeps the chat ranked and never lowers its score |
| Pipeline.FlaggedMarks | app/analysis/pipeline.py:300-312 | a suspicious phrase of confidence 0.5 or more that relates to some finding marks the first such one with its suggestion and suspicion, and changes nothing else |
| Pipeline.FlaggedAdds | app/analysis/pipeline.py:313-327 | one that relates to none is added to the first analyzed chat when the message has it, unless eight findings there rank at least as high, and changes nothing else |
| Pipeline.UnflaggedIgnored | app/analysis/pipeline.py:293-295 | any other phrase changes nothing |
| Pipeline.MergeKeepsRanking | app/analysis/pipeline.py:289-330 | the whole AI merge keeps every chat ranked, lowers no score, adds no rule finding, and leaves chats that were not analyzed as they are |
| Pipeline.OutcomeIsRanked | app/analysis/pipeline.py:95-106 | so in every outcome each chat is ranked, with or without the merge |
| Pipeline.MaxScoreLaws | app/analysis/pipeline.py:108-109 | the overall score is attained by some scored chat and bounds all of them; 0 without any |
| Pipeline.AnalyzeChat | app/analysis/pipeline.py:141-186 | the stages of one chat, with the inaccessible and failing branches, compute `ChatResult`, whose status `ChatStatusIff`, score `MergedVerdict` and findings `RawHasRule` and `ResultIsRanked` determine |
| Pipeline.AnalyzeChats | app/analysis/pipeline.py:95-97 | every chat is analyzed on its own; a failing one does not stop the others |
| Pipeline.AnalysisOutcome.MergeOne | app/analysis/pipeline.py:300-327 | one phrase: attached to the first finding it touches, else added to the first analyzed chat when the message has it |
| Pipeline.AnalysisOutcome.MergeAi | app/analysis/pipeline.py:289-330 | the loop over the flagged phrases updates the chat results to `MergeAll` |
| Pipeline.AnalysisOutcome.Analyze | app/analysis/pipeline.py:76-121 | the outcome's fields: merged results, maximum score, its level, and the counts of chats checked, analyzed and unavailable |
| Findings.AddMatchesLaws | app/analysis/pipeline.py:190-202 | adding matches keeps what there was, keeps terms distinct, covers every matched text, and adds for a new text the finding of its first match |
| Findings.RuleFindingsLaws | app/analysis/pipeline.py:188-216 | rule findings have distinct terms; every unsuppressed match is covered by the first match of its text; a fuzzy match appears only for a term no rule matched |
| Findings.RuleFoundIff | app/analysis/pipeline.py:188-216 | there is a finding of a rule exactly when there is an unsuppressed match |
| Findings.FindingOfMatch | app/analysis/pipeline.py:194-202 | a finding has the text, category, evidence and note of its match, the reason of its kind of evidence, and no history yet |
| Findings.CandidatesIff | app/analysis/pipeline.py:237-254 | a novelty candidate is exactly an uncovered token or pair of the message that passes the filters |
| Findings.UnseenCandidateIff | app/analysis/pipeline.py:268-287 | a word is novel exactly when it has six characters, a letter, no digit and no inner punctuation, is not common, and no mention, hash tag or link |
| Findings.UnseenPairIff | app/analysis/pipeline.py:247-250 | a pair of neighbouring words of a message is novel exactly when both are |
| Findings.UnseenScanLaws | app/analysis/pipeline.py:237-265 | the scan keeps what there was and flags all candidates when there are at most eight, else eight that no dropped one exceeds in length, each as an unseen term without history |
| Findings.GatheredLaws | app/analysis/pipeline.py:218-235 | gathering succeeds exactly when it does for every term; each finding gets the answer for its own term and the reason that answer calls for, and keeps everything else |
| Findings.AddAll | app/analysis/pipeline.py:190-202 | the loop with its duplicate check computes `AddMatches` |
| Findings.CollectRuleFindings | app/analysis/pipeline.py:188-216 | deterministic matches first, then fuzzy ones |
| Findings.ScanItems | app/analysis/pipeline.py:240-254 | the loop keeps each passing, uncovered item at its first place, and extends the covered set by just those |
| Findings.UnseenScan | app/analysis/pipeline.py:237-265 | both loops, the cut and the appended findings |
| Findings.GatherHistory | app/analysis/pipeline.py:218-235 | the loop, with its overwritten reasons and the first failing term |
| Ranking.SortLaws | app/analysis/pipeline.py:164 | sorting is a permutation, highest first, equal keys in their old order |
| Ranking.HeadIsTop | app/analysis/pipeline.py:164-168 | the head has the highest key, and nothing dropped by the cut exceeds anything kept |
| Scoring.DefaultRisk | app/config/settings.py:17-27 | default weights: a rule scores exactly 70, all other evidence between 0 and 30 |
| Scoring.DefaultScores | app/config/settings.py:17-27 | the score of each kind of evidence with each history: frequent use scores lowest, absence highest |
| Scoring.SumOfWeights | app/analysis/scoring.py:36-87 | with integral weights the score is the evidence's own weight and the history's, raised to the floor for a rule |
| Scoring.RiskIsSum | app/analysis/scoring.py:58-86 | with any weights it is that sum, floored and cut to 0 and 100, to within half a point |
| Scoring.LevelRanges | app/analysis/scoring.py:16-33 | the five levels and their ranges |
| Scoring.RuleKeepsFloor | app/analysis/scoring.py:79-83 | with any weights, rule evidence never scores below the floor |
| Scoring.RoundNearest | app/analysis/scoring.py:86 | rounding gives the nearest integer, of two equally near ones the even one |
| Scoring.RiskInRange | app/analysis/scoring.py:85-86 | a risk is between 0 and 100 |
| Scoring.ScoreFinding | app/analysis/scoring.py:50-89 | the accumulated score, floor, clamp, rounding and level |
| Scoring.LevelOfScore | app/analysis/scoring.py:25-33 | the threshold loop gives the level whose range holds the score, clamping out-of-range scores |
| IndexStore.PageKeepsCounts | app/history/indexer.py:168-205 | index conservation: after a committed page every aggregate equals the number of its term rows, and none is kept for nothing |
| IndexStore.PageKeepsRows | app/history/indexer.py:137-178 | after a committed page every term row is of a stored message, and every term of every stored text has its row |
| IndexStore.PageKeepsConsistent | app/history/indexer.py:132-206 | message rows, term relation, aggregates and indexed counts agree after every committed page |
| IndexStore.PageIndexes | app/history/indexer.py:137-178 | what was indexed stays so, and every message of a committed page with a character that is no space is indexed with all its terms |
| IndexStore.CommittedPageStores | app/history/indexer.py:138-178 | a message with a character that is no space gets its row, with its text or the first 1000 characters of it, the clean view and the date, and a term row for each term of that view; a message of spaces only gets and changes nothing |
| IndexStore.StoredValue | app/history/indexer.py:140-167 | the stored row of a visible message has the cut text and its normalized view, refreshed when it was there before |
| IndexStore.ReindexingIsRejected | app/database/models.py:162-164 | serving an indexed message with a term again violates the unique constraint and aborts its page |
| IndexStore.ResyncRejectedIff | app/database/models.py:162-164 | a page of indexed messages is refused exactly when one of its visible messages has a term |
| Indexer.ResyncBlockedIff | app/history/indexer.py:59-63 | an undisturbed resync of a fully indexed chat fails exactly when one of the messages it may be served, up to its cap, has a term |
| Indexer.PageRefusedIff | app/history/indexer.py:168-178 | a page is rejected exactly when one of its messages has a term row already or an overlong term |
| IndexStore.CreatedCounts | app/history/indexer.py:133-162 | a chat's rows grow by exactly `created`, no other chat's rows at all |
| IndexStore.PageIsGapless | tests/conftest.py:132-141 | no message lies between a page and the cursor taken from it |
| IndexStore.NextCursorSafe | app/history/indexer.py:98-103 | once its page is stored, every visible message up to the next cursor is indexed |
| IndexStore.EmptyPageIff | app/history/indexer.py:89-97 | a page is empty exactly when the limit is 0 or nothing is left after the cursor |
| IndexStore.PageKeepsSafe | app/history/indexer.py:132-206 | a committed page keeps the index consistent and every persisted cursor safe |
| IndexStore.CursorKeepsSafe | app/history/indexer.py:208-213 | persisting a safe cursor keeps the invariant |
| IndexStore.FinishKeepsSafe | app/history/indexer.py:240-261 | so does the end of a run with its fresh count of rows |
| Indexer.AddTermRows | app/history/indexer.py:168-178 | the loop over a message's terms adds exactly their rows and counts each once, or stops at a refused row |
| Indexer.AddAggregates | app/history/indexer.py:180-205 | the loop over the page's counts adds each to its aggregate and touches no other |
| Indexer.StagePage | app/history/indexer.py:132-206 | the page's session is refused exactly when some row is, and otherwise leaves the tables that `CommittedPageStores`, `PageKeepsCounts` and `CreatedCounts` describe |
| Indexer.HistoryIndexer.StorePage | app/database/engine.py:55-64 | the page commits whole, as `CommittedPageStores` describes it, exactly when no row is refused and the transaction proceeds, or changes nothing |
| Indexer.HistoryIndexer.PersistCursor | app/history/indexer.py:208-213 | writes the cursor of a configured chat and nothing else |
| Indexer.HistoryIndexer.PersistState | app/history/indexer.py:215-228 | writes the state of a configured chat and nothing else |
| Indexer.HistoryIndexer.PersistEstimate | app/history/indexer.py:230-238 | an absent estimate never wipes the previous one |
| Indexer.HistoryIndexer.PersistFinish | app/history/indexer.py:240-261 | writes the final state and the number of rows counted afresh |
| Indexer.HistoryIndexer.SyncPage | app/history/indexer.py:89-103 | one turn: page and cursor are two transactions, and a failure before, between or after them leaves the cursor safe; undisturbed, it ends with an error exactly when the page cannot be stored, and then changes nothing |
| Indexer.HistoryIndexer.SyncPages | app/history/indexer.py:77-103 | the loop ends; processed stays within a nonzero cap; rows gained are the new messages; an empty page with a positive batch means the whole history is indexed; undisturbed, it ends with an error exactly when a message within its reach is refused, and with nothing stored when that is on its first page |
| Indexer.HistoryIndexer.Begin | app/history/indexer.py:59-64 | a resync's reset to 0 keeps the invariant, and the run pages from the cursor it then has |
| Indexer.HistoryIndexer.SyncBody | app/history/indexer.py:66-116 | estimate, pages and end, with the failing and dying ways out of the `try` |
| Indexer.HistoryIndexer.Finish | app/history/indexer.py:105-111 | DONE after an empty page, PARTIAL with the coverage note after the cap |
| Indexer.HistoryIndexer.SyncChat | app/history/indexer.py:57-130 | a whole run in any environment: invariant kept, the tables without the chat unchanged, nothing indexed lost, numbers accounted for, DONE/PARTIAL/FAILED exactly by how it ended, and DONE with a positive batch means the whole history is indexed; undisturbed, it fails exactly when a message within its reach cannot be stored, and stores nothing and keeps its cursor when that is on its first page |
| Indexer.HistoryIndexer.Estimate | app/history/indexer.py:67-69 | the estimate is kept when there is one, and nothing else changes |
| Indexer.HistoryIndexer.Record | app/history/indexer.py:116-130 | a return is passed on, a failure put on record as FAILED, a killed or unrecorded run reports nothing |
| IndexRuns.StepKeeps | app/history/indexer.py:77-103 | every transaction of every job, every ending, every change of a chat, and adding or removing one keeps the invariant |
| IndexRuns.AlwaysSafe | app/history/indexer.py:57-130 | in every world of every interleaving with crashes: the structures agree, and every visible message at or below a persisted cursor is indexed |
| IndexRuns.IndexedForever | app/history/indexer.py:132-206 | what is indexed is never lost, whatever runs or crashes |
| IndexRuns.PastCursorsHold | app/history/indexer.py:59-63 | whatever a chat shows at or below a cursor it ever had is indexed, also after a reset or a removal |
| IndexRuns.CrashLeavesBehind | app/history/indexer.py:98-103 | a run that ends between page commit and cursor write leaves every message with terms of that page beyond the cursor |
| IndexRuns.StartingOverLeavesBehind | app/history/indexer.py:59-62 | so does a resync of an indexed chat, or adding a removed one again |
| IndexRuns.NeverPassed | app/history/indexer.py:77-103 | from then on, while the chat shows the message, no behaviour of any jobs brings the cursor past it |
| IndexRuns.NeverDone | app/history/indexer.py:95-97 | and no job of the chat is served the empty page that would end it as DONE |
| IndexRuns.EmptyPageMeansComplete | app/history/indexer.py:95-97 | a job that is served an empty page has the whole history indexed at that moment, whatever other jobs did |
| IndexRuns.OverlappingStoreRefused | app/database/models.py:162-164 | two jobs that fetched the same message cannot both store it, so no mention counts twice |
| IndexRuns.IndexingHappens | app/history/indexer.py:57-130 | a new chat's first message does get indexed: a behaviour in which a job fetches and stores it, moves the cursor to it, and ends |
| IndexRuns.StartingOverHappens | app/history/indexer.py:59-62 | one that goes on with a resync from 0 and with the removal of the chat, which leaves the index rows |
| Coverage.CompleteIff | app/history/coverage.py:33-64 | complete exactly when a sync got somewhere and ten times the indexed count reaches nine times a known, positive estimate |
| Coverage.CoverageIff | app/history/coverage.py:33-64 | when the state is incomplete or unknown otherwise, and which note and estimate go with it |
| Coverage.CompleteIsBacked | app/history/coverage.py:33-64 | a complete verdict is backed by that many stored rows, also when the chat row was read earlier |
| Tokenize.ExtractTerms | app/analysis/tokenize.py:20-31 | the loops collect exactly the words of three or more characters and the pairs of such neighbours |
| Tokenize.SplitBigram | app/analysis/tokenize.py:28-30 | splitting a joined bigram gives back its two tokens |
| Tokenize.IndexableIff | app/analysis/tokenize.py:20-31 | a string is a term of some text exactly when it is one or two lower-case words of three or more word characters |
| Searcher.MostSimilar | app/history/searcher.py:129-137 | the loop finds `BestCandidate` |
| Searcher.BestIsFirstMaximum | app/history/searcher.py:129-137 | the first candidate of the highest positive similarity, other than the term itself |
| Searcher.FuzzyMatchIff | app/history/searcher.py:122-140 | a similar wording is found exactly when the term has five characters and some other listed term reaches the threshold |
| Searcher.HistorySearcher.FrequentTerms | app/history/searcher.py:142-158 | the cached list serves while non-empty and younger than 600 seconds; otherwise it is read and cached with its time, and no other chat's entry changes |
| Searcher.HistorySearcher.SimilarHistory | app/history/searcher.py:122-140 | the fuzzy match on the list in use; a short term never reads it |
| Searcher.HistorySearcher.EvidenceForTerm | app/history/searcher.py:55-120 | the decision chain over local count, search, fuzzy match and coverage |
| Searcher.LocalAbsence | app/history/indexer.py:168-205 | the aggregate is 0 exactly when the relation has no row, and then no stored text has the term |
| Searcher.UnseenIsBacked | app/history/searcher.py:63-112 | with coverage required, UNSEEN implies complete coverage, no stored text with the key as an index term, no search hit, and no similar listed term, for any chat row that counts no more rows than there are by now |
| Searcher.EvidenceIff | app/history/searcher.py:63-120 | the whole decision: the local count, else the number of search hits, else a similar wording without count; with none, unseen exactly when the history is complete or that is not required, else unknown |
| Searcher.UnseenAgainstFreshList | app/history/searcher.py:142-158 | with a fresh list, a chat term may resemble an unseen one only if 500 terms are used at least as often |
| Searcher.SeenCountsRows | app/history/searcher.py:67-76 | a local SEEN count is the number of term rows, and is given exactly when there is one |
| Searcher.IncompleteIsUnknown | app/history/searcher.py:104-120 | without complete coverage absence is never concluded: the answer is SEEN or UNKNOWN |
| Searcher.UnindexableIsNeverLocal | app/history/searcher.py:35-43 | a term without the shape of an indexed one is never found locally, whatever is stored |
| CompileCache.RuleCompiler.CompileRulePattern | app/rules/engine.py:43-68 | one lookup of the cache answers as the sequence of all earlier lookups says |
| CompileCache.FreshIff | app/rules/engine.py:49-55 | the answer is the fresh compilation exactly when the pattern is invalid or its entry is at most 300 seconds old; any object returned is the compilation of the current pattern and flag |
| CompileCache.NeverRecompiled | app/rules/engine.py:49-55 | a valid pattern keeps the time of its first lookup forever |
| CompileCache.ExpiredForGood | app/rules/engine.py:49-55 | so it is answered exactly within 300 seconds of that, and with nothing after |
| RuleEngine.MatchRules | app/rules/engine.py:120-156 | the two passes compute `Matches`, whose members `MatchedIff`, `MatchRuleMeaning` and `MatchReads` determine |
| RuleEngine.MatchedIff | app/rules/engine.py:120-156 | a match is reported exactly when an enabled block rule matched a non-empty fragment that no enabled allow rule matched, up to folding |
| RuleEngine.MatchRuleMeaning | app/rules/engine.py:75-111 | what each kind of rule matches under each case flag: a literal occurrence first, then the compact form of a phrase and the deobfuscated word of an exact rule, otherwise nothing; a regex searches the original exactly when case-sensitive |
| RuleEngine.MatchReads | app/rules/engine.py:144-155 | a match carries the fragment and its rule's identity, category, note and kind of evidence |
| RuleEngine.AllowOrderIrrelevant | app/rules/engine.py:130-136 | the result does not depend on where the allow rules stand |
| RuleEngine.AllowRulesOnlyRemove | app/rules/engine.py:133-143 | adding allow rules leaves, in order, the matches they do not cover |
| RuleEngine.ExpiredRuleIsSilent | app/rules/engine.py:77-80 | a regex rule whose cache entry has expired matches no message |
| RuleEngine.FuzzyRuleMatches | app/rules/engine.py:159-195 | the loop over block rules computes `FuzzyMatches` |
| RuleEngine.FuzzyMatchMeaning | app/rules/engine.py:159-195 | a fuzzy match is of a long token spelled unlike the pattern, above the threshold, and closest among all such |
| RuleEngine.FuzzyMatchOfIff | app/rules/engine.py:159-195 | a rule has a fuzzy match exactly when it is an enabled block rule, no regex, with a form of four characters or more, and a long token of another form is close enough |
| RuleEngine.ExtractOneIsFirst | app/analysis/fuzzy.py:20-33 | of equally close forms the first is taken |
| RuleEngine.FuzzyMatchReads | app/rules/engine.py:183-194 | a fuzzy match carries its rule's identity and category, and how close it is |
| RuleEngine.EquivalenceTestIsDead | app/rules/engine.py:177-182 | the test for an equivalent spelling never skips a match |
| RuleEngine.FuzzyIgnoresAllowRules | app/rules/engine.py:169-174 | fuzzy matches are those of the block rules alone |
| Lifecycle.AnalysisService.Submit | app/services/analysis_service.py:50-88 | a text is accepted exactly when it is not blank and not oversized; then the new request is queued, and its job is put on the queue exactly when Redis is up; nothing else changes |
| Lifecycle.AnalysisService.QueuedIds | app/services/analysis_service.py:96-103 | different queued requests, at most the limit, and all of them if they fit |
| Lifecycle.AnalysisService.RecoverQueued | app/services/analysis_service.py:90-113 | queued requests, all if they fit the limit, get exactly the jobs whose enqueue succeeded, and those are counted |
| Lifecycle.AnalysisService.ClaimRequest | app/services/analysis_service.py:119-133 | skips a request that is gone, running, or done with a result; else marks it running and reads its text |
| Lifecycle.AnalysisService.StoreResult | app/services/analysis_service.py:144-163 | writes or overwrites the one result row and marks the request done |
| Lifecycle.AnalysisService.MarkFailed | app/services/analysis_service.py:169-176 | marks an existing request failed and leaves its result |
| Lifecycle.AnalysisService.Recheck | app/services/analysis_service.py:215-251 | an existing request gets the new text, is queued with one more retry and without its old result, and the job of that retry is put on the queue exactly when Redis is up; nothing else changes |
| Lifecycle.AlwaysInv | app/services/analysis_service.py:115-176 | in every world of every interleaving with crashes and redeliveries: executions of a request at work number at most its rechecks, plus one while running; a done request has a result computed from a text it held |
| Lifecycle.NeverRecheckedNeverTwice | app/services/analysis_service.py:129-131 | a request that was never rechecked is never worked on twice at once |
| Lifecycle.QueuedHasJob | app/services/analysis_service.py:83-113 | in every world of every interleaving a queued request has its own job waiting, of its submit or of its last recheck, unless Redis was down when that was enqueued |
| Lifecycle.QueuedHasJobWhileUp | app/services/analysis_service.py:83-113 | so when every enqueue reaches Redis, every queued request has its job waiting |
| Lifecycle.RecoveryRequeues | app/services/analysis_service.py:86-113 | a recovery that reaches Redis gives a request a job, and the claim of that job runs a claimable request on its current text |
| Lifecycle.ClaimTakesJob | app/services/analysis_service.py:115-133 | a claim takes its job off the queue, unless that is delivered again, and no other |
| Lifecycle.EndTakesExecution | app/services/analysis_service.py:144-176 | an end of an execution takes just that one from those at work; a crash writes no row |
| Lifecycle.OverlapAttained | app/services/analysis_service.py:237-248 | the bound is attained for every number of rechecks |
| Lifecycle.RecheckSafeIff | app/services/analysis_service.py:233-248 | a recheck can end in a stale DONE result exactly when an execution of the request is at work at that moment |
| Lifecycle.RowsTellIff | app/services/analysis_service.py:233-248 | of the request's row alone: a reachable world with this status and retry count in which a recheck may be lost exists exactly when the retry count is positive or the status is RUNNING |
| Lifecycle.BusyAttained | app/services/analysis_service.py:115-176 | for each such status and retry count, a behaviour with an execution at work |
| Lifecycle.StaleStays | app/services/analysis_service.py:123-128 | a stale result with nothing at work stays until the next recheck |
| Lifecycle.ResultIsCurrent | app/services/analysis_service.py:144-161 | if no recheck overlaps an execution, a result exists exactly when the request is done, and it is of the current text |
| CallGate.AlwaysInv | app/telegram/gateway.py:183-235 | in every interleaving with cancellations: calls inside the semaphore within the maximum, stamps of a chat at least the interval apart, attempts within the limit |
| CallGate.WindowBound | app/telegram/gateway.py:183-191 | a window of length W holds at most floor(W / interval) + 1 stamps of a chat |
| CallGate.CallWithRetry | app/telegram/gateway.py:193-235 | only network errors are retried, within the limit; the caller sees the last answer, a flood wait capped; between two attempts it backs off 2 to 30 seconds |
| CallGate.BackoffDoubles | app/telegram/gateway.py:220-230 | the backoff starts at 2 to 3 seconds, doubles up to the jitter, and is half a minute from the fifth on |
| CallGate.AttemptAndAnswer | app/telegram/gateway.py:198-235 | an attempt takes a free permit and is counted; an answer ends the call unless it is a network error and attempts are left |
| CallGate.Spacing | app/telegram/gateway.py:183-191 | a call in a chat takes the chat's free lock, wakes exactly when the interval after the last stamp is over, at once if it is, and leaves its own stamp; a call without a chat does neither |
| CallGate.CancelLeavesNothing | app/telegram/gateway.py:186-204 | a cancelled call is gone, and exactly the lock it held is free again |
| CallGate.AloneItGetsThrough | app/telegram/gateway.py:193-204 | alone, with a permit to give and the interval over, a call gets through in its first attempt without sleeping |
| TextTransform.NormalizeTokenCase | app/bot/handlers/text_transform.py:54-68 | the loop with its flag re-cases position by position |
| TextTransform.TransformMessageText | app/bot/handlers/text_transform.py:13-37 | the loop with its two flags computes `Transform` |
| TextTransform.TokenAt | app/bot/handlers/text_transform.py:19-35 | each token of the result from its neighbours in the input: verbatim when caseless, protected or all-caps, else capitalized unless the cased token before it is an acronym |
| TextTransform.CharacterAt | app/bot/handlers/text_transform.py:13-68 | each character of the result: caseless, protected and all-caps tokens are unchanged; in others the first cased character becomes upper-case, or lower-case when the last cased token before is an acronym, every later cased one lower-case, and caseless ones stay |
| TextTransform.ProtectedIff | app/bot/handlers/text_transform.py:44-51 | protected is exactly what has "://" or "@", or starts with "#", "www." or "t.me/" |
| TextTransform.JoinConserves | app/bot/handlers/text_transform.py:13-37 | the result has no whitespace and is the input without its whitespace, character by character up to case |
| TextTransform.JoinIdempotent | app/bot/handlers/text_transform.py:13-37 | on text without whitespace the transform is idempotent |
| TextTransform.ThirdPassChangesNothing | app/bot/handlers/text_transform.py:13-37 | a third pass never changes what the second gave |
| Normalize.CollapseCapsRuns | app/analysis/normalize.py:84-85 | each maximal run of n equal characters other than newline becomes min(n, 2), in place |
| Normalize.CollapseIdempotent | app/analysis/normalize.py:84-85 | collapsing twice is collapsing once |
| Normalize.DeobfuscateIdempotentIff | app/analysis/normalize.py:88-91 | deobfuscating twice is deobfuscating once exactly for tokens without the letter be |
| Normalize.CleanIsJoinedWords | app/analysis/normalize.py:94-102 | the clean view is the words of the folded text joined by single blanks |
| Normalize.CleanFoldsPunctuation | app/analysis/normalize.py:20-26 | where composition forms change nothing, the clean view neither sees characters of no width nor tells typographic ones from what they stand for |
| Normalize.StripEmptyIff | app/history/indexer.py:138-139 | stripping leaves nothing exactly of a text of spaces |
| Normalize.LeetReads | app/analysis/normalize.py:36-40 | each substitute of leetspeak with its letter; other characters stay |
| Normalize.ConfusableReads | app/analysis/normalize.py:29-33 | each look-alike with its Latin counterpart; other characters stay |
| Normalize.TokensRoundTrip | app/analysis/normalize.py:118-132 | joining a document's tokens gives back its clean view |
| Normalize.BigramRoundTrip | app/analysis/normalize.py:128-130 | splitting a document's bigram gives back two neighbouring tokens |
| Normalize.CompactIgnoresSeparators | app/analysis/normalize.py:113-115 | characters outside words never change the compact view |
| Normalize.LiteralImpliesCompact | app/analysis/fuzzy.py:45-51 | with a per-character fold, a literal occurrence of a phrase is also a compact one |
| Formatters.AppendFinding | app/bot/formatters.py:115-128 | the lines of a finding, with the optional ones |
| Formatters.BuildBlock | app/bot/formatters.py:109-129 | the block of a chat, with at most eight findings |
| Formatters.AppendBlock | app/bot/formatters.py:130-134 | the loop over a chat's lines, flushing a chunk that went over the limit |
| Formatters.FormatEvidence | app/bot/formatters.py:101-140 | the loops over chats, findings and lines and the last chunk give exactly `Messages`, or the placeholder |
| Formatters.EvidenceConserved | app/bot/formatters.py:101-140 | every line with a visible character appears in the chunks exactly once and in order |
| Formatters.FindingReported | app/bot/formatters.py:109-129 | the report has the lines of each of the first eight findings of every chat, in one piece |
| Formatters.AtMostEightShown | app/bot/formatters.py:115 | and of no more than eight |
| Formatters.FindingReads | app/bot/formatters.py:115-128 | the lines of a finding, one by one: term and category, evidence, history with count, an example of at most 300 characters, risk, components, reason or a dash, suggestion |
| Formatters.ChatHeadReads | app/bot/formatters.py:110-114 | and those of a chat: name, status, coverage if stated, score if there is one |
| Formatters.ChunksSized | app/bot/formatters.py:132-138 | in each chunk the lines but the last total at most 3900 characters, and every chunk but the last one totals more; request ids are at most 32 characters, as their column has it |
| Formatters.ReportFitsIff | app/bot/formatters.py:3-4 | all messages of a report keep Telegram's limit exactly when, in running totals over its lines, every flush and the rest do |
| Formatters.ShortLinesFit | app/bot/formatters.py:130-137 | they do if no line, with the lines before it in its chunk, has more than 196 characters and breaks |
| Formatters.WholeMessageOverflows | app/bot/formatters.py:101-140 | a report whose first finding is a whole message of 3600 characters or more has a message over the limit |
| Authorization.ReplayIsLast | app/services/authorization.py:302-312 | replaying the log and its last event for a user say the same |
| Authorization.AuthorizationService.AuthorizeUser | app/services/authorization.py:96-140 | row, event and dropped cache entry; table, log and cache still agree |
| Authorization.AuthorizationService.RevokeUser | app/services/authorization.py:143-161 | takes effect exactly for an authorized user, so every revocation directly follows an authorization of that user |
| Authorization.AuthorizationService.GetCachedAuth | app/services/authorization.py:66-89 | the status through the cache is that of the replayed log; the cache is cleared when due |
| Authorization.AuthorizationService.IsUserAuthorized | app/services/authorization.py:44-51 | in every sequential run the answer is the last event of the log, or yes for a root admin |
| AuthInterleaved.AlwaysInv | app/services/authorization.py:66-93 | in every interleaving of processes each cache entry was the user's status when it was read |
| AuthInterleaved.StaleBound | app/services/authorization.py:66-79 | an answer from a cache was true no longer ago than 60 seconds and one read's latency |
| AuthInterleaved.MayAnswerStaleIff | app/services/authorization.py:66-89 | until a user changes again, a process may answer with an outdated status exactly when it has such an entry in a cache not due for clearing, or such a read under way |
| AuthInterleaved.InvalidationSufficesIff | app/services/authorization.py:92-93 | after the invalidation only a read under way is left to fear in that process; for every other process nothing has changed |
| AuthInterleaved.RiskPasses | app/services/authorization.py:66-79 | once the last change of a user is longer ago than 60 seconds and one read's latency, no process may answer with an outdated status |
| AuthInterleaved.InvalidationOvertaken | app/services/authorization.py:81-93 | a behaviour in which a read under way brings the revoked status back after the invalidation |
| AuthInterleaved.OtherProcessServes | app/services/authorization.py:34-35 | a behaviour in which another process still answers from its entry after the invalidation |

## Left out

- Paging in Telethon (`gateway.iter_messages`): pages follow the contract of the gateway double in tests/conftest.py; a history is already restricted to the topic of its chat.
- Context samples, timestamps and text hashes of index rows; an overlong term (over 128 characters) is a refused row, as PostgreSQL has it.
- Edits of messages that were indexed before, and retention purges: both change or delete rows outside the indexer.
- Findings and chat results are values: aliasing between the findings list and a chat's list is not captured, nor are score components, titles, example contexts, summary lines, warnings and recommendation texts.
- Findings.GatherHistory: the history of a term is a function of the term during one analysis; a term asked for twice by findings equal up to case could get two answers.
- Searcher.HistorySearcher.FrequentTerms: its two dictionaries are one map of entries with their time.
- CompileCache.RuleCompiler.CompileRulePattern: one lookup reads the clock once, where the code reads it up to twice.
- Scoring.ScoreFinding and `Coverage.ComputeCoverage` compute with reals, so the rounding of floating-point sums and of the ratio at 0.9 is not modelled.
- Formatters.FormatEvidence takes numbers, labels and reasons as texts; their lookup tables are not modelled.
- NFC, NFKC, casefolding, regex search, edit similarity and character classes are uninterpreted; `Normalize.LiteralImpliesCompact` and the laws of `TextTransform` say what they ask of them. The list of common words is a parameter.
- CallGate: a sleep lasts at least as long as asked, and `ensure_connected` is not modelled. Fairness of locks and liveness are not stated.
- Lifecycle.AlwaysInv: a session is one atomic step, so two executions inserting the same result row inside overlapping sessions are not modelled; the order of the recovery query, oldest first, is not either.
- Requests left RUNNING by a crash are never claimed again, so nothing is stated about their completion.
- IndexRuns.StepKeeps: a chat row is keyed by its chat, so a job of a removed chat that is added again writes to the new row, where the code's job would write to none; ownership of chats is not modelled.
- Authorization levels, pending actions, display columns, sessions, the LLM client, HTTP and bot handlers, settings validation and migrations: mostly single-row updates and plumbing.
