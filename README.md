# Feedback classification core, in Dafny

This project models the classification core of a Cloudflare Workers service that collects product feedback. It stores the feedback in a D1 table and labels each row with a sentiment, a score and topics. The classification exists in two copies:

- **The durable workflow** `FeedbackWorkflow.run` (src/workflow.ts). It finds the feedback id in the event, then runs four named steps: `retrieve-feedback`, `analyze-sentiment`, `extract-topics` and `save-results`. A step that completed in an earlier attempt of the same instance is not run again; its recorded value is returned instead. Any error is rethrown.
- **The synchronous fallback** `processFeedbackWithAI` (src/index.ts). It is used when a workflow instance cannot be created. It never throws and does not look at the `processed` flag.

Three other request handlers are also modelled:

- the filter query of `GET /api/feedback`;
- the insert and instance id of `POST /api/feedback`;
- the backlog sweep of `POST /api/process-pending`.

The model also covers the keyword fallback of `POST /api/chat`.

Modules:

- `Text`: the JavaScript string behaviour the rules depend on:
  - `||` truthiness;
  - ASCII `toLowerCase`/`toUpperCase`;
  - `includes` and `trim`;
  - `join` and a matching split;
  - `${n}` and `parseInt`.
- `Classification`: the rules that both copies share:
  - the chat model's answer → label;
  - the classifier's answer → label and score;
  - the keyword sentiment fallback;
  - the whole-word topic scan, with de-duplication in first-appearance order, a cap of three and `", "` joining.
- `Store`: the `feedback` table. It is a class whose map of rows is updated in place. This module also holds the classification UPDATE, the INSERT and the `processed = 0` filter.
- `Workflow`: the run as a pure function `RunSpec` and as the imperative method `FeedbackWorkflow.Run`, which is proved equal to it. The three steps after retrieval are also modelled on their own, as `ProcessSpec` and the method `FeedbackWorkflow.Process`. The step state of an instance is the class `WorkflowStep`.
- `Api`: `processFeedbackWithAI` as `DirectSpec` and the method `ProcessFeedbackWithAI`, plus the other handlers.

The environment is represented by parameters:

- The AI binding is an oracle: each call is `Threw` or `Returned(reply)`, with the fields the code reads.
- A missing `DB` or `AI` binding is a flag.
- A failing database read or UPDATE is a flag; in the sweep each row's direct classification has its own flags.
- A missing `FEEDBACK_WORKFLOW` binding is a flag; whether creating a workflow instance throws is a parameter (the set `failing` of ids in the sweep).
- Scores are exact reals.

## Model

| member | source | states |
|---|---|---|
| Text.Truthy | src/index.ts:104-111 | JavaScript truthiness of an optional string: present and non-empty |
| Text.FirstTruthy | src/index.ts:210 | `a \|\| b \|\| fallback` on optional strings: the first present non-empty value, else the fallback |
| Text.FirstNonZero | src/index.ts:211 | `score \|\| confidence \|\| 0.5`: the first present non-zero number, else the fallback, so a score of 0 is replaced |
| Text.ToLower | src/workflow.ts:162 | `toLowerCase` keeps the length and lower-cases each ASCII letter in place |
| Text.ToUpper | src/workflow.ts:139 | `toUpperCase` keeps the length and upper-cases each ASCII letter in place |
| Text.Contains | src/workflow.ts:142-167 | `includes`: the word occurs as a slice at some position |
| Text.ContainsSurvivesLower | src/workflow.ts:162-167 | a lower-case keyword found in the content is still found after lower-casing |
| Text.TrimKeepsWords | src/workflow.ts:139-145 | `trim` neither adds nor removes any occurrence of a word without whitespace |
| Text.SplitJoin | src/workflow.ts:220 | a list of non-empty, comma-free topics joined with `", "` splits back into the same list |
| Text.IntToStringInjective | src/index.ts:173 | different ids print differently in a template literal |
| Text.ParseIntToString | src/index.ts:98-99 | `parseInt` reads back every integer that `${n}` prints |
| Text.Trim | src/workflow.ts:139 | `trim`: drops JavaScript whitespace at both ends; `TrimKeepsWords` states what it keeps |
| Text.Join | src/workflow.ts:220 | `join(', ')`; `SplitJoin` states that it can be undone |
| Text.IntToString | src/index.ts:173 | `${n}` for an integer: optional minus sign and decimal digits; `IntToStringInjective` and `ParseIntToString` state its properties |
| Text.ParseInt | src/index.ts:98-99 | `parseInt` of an optional minus sign and leading digits, `NaN` (None) when there is no digit; `ParseIntToString` states it inverts `${n}` |
| Classification.KeywordSentiment | src/workflow.ts:113-114 | the keyword fallback yields only (POSITIVE, 0.8), (NEGATIVE, 0.3) or the untouched initial (neutral, 0.5) |
| Classification.KeywordSentimentPositive | src/workflow.ts:162-166 | content whose lower-cased form holds great/love/excellent (so in any letter case) is POSITIVE 0.8, even if it also holds bug/crash/fix |
| Classification.KeywordSentimentPositiveAsWritten | src/workflow.ts:162-166 | in particular content holding great/love/excellent as written in lower case is POSITIVE 0.8 |
| Classification.KeywordSentimentNegative | src/workflow.ts:162-170 | content holding bug/crash/fix in any letter case and no positive word in any letter case is NEGATIVE 0.3 |
| Classification.KeywordSentimentNegativeAsWritten | src/workflow.ts:162-170 | in particular content holding bug/crash/fix as written in lower case and no positive word is NEGATIVE 0.3 |
| Classification.ResponseSentiment | src/workflow.ts:142-151 | the chat answer maps to exactly one of (POSITIVE, 0.8), (NEGATIVE, 0.2), (NEUTRAL, 0.5) |
| Classification.ResponseSentimentCaseInsensitive | src/workflow.ts:139-151 | the label is POSITIVE iff the upper-cased answer contains POSITIVE; NEGATIVE iff it contains NEGATIVE and not POSITIVE; NEUTRAL iff neither; trimming plays no part |
| Classification.ResponseSentimentLowerCaseReply | src/workflow.ts:139-144 | an answer mentioning "positive" in lower case still reads as POSITIVE 0.8 |
| Classification.LabelSentiment | src/index.ts:210-211 | the classifier's label is kept when non-empty; when it is missing or empty a non-empty `sentiment` is taken; else "neutral"; a non-zero score is kept; when it is missing or 0 a non-zero confidence is taken; else 0.5; the name is never empty and the score never 0 |
| Classification.ResponseTopics | src/workflow.ts:209 | the model's `response` is used when non-empty; when it is missing or empty a non-empty `text` is used; when both are missing or empty the topics are "general" |
| Classification.ResponseText | src/workflow.ts:139 | the upper-cased, trimmed `response \|\| text \|\| ''` that the label is read from; `ResponseSentimentCaseInsensitive` states how it decides the label |
| Classification.KeywordSentimentNeutral | src/workflow.ts:113-173 | content with none of the six keywords in any case keeps the initial lower-case ('neutral', 0.5), a label no reading of any chat reply gives |
| Classification.SpelledAtOccurs | src/workflow.ts:219 | the character-by-character spelling the scan uses agrees with `Text.OccursAt`, the slice comparison `includes` uses |
| Classification.AlternativeAt | src/workflow.ts:219 | the pattern at one position: an alternative occurring there as a whole word, or none exactly when no alternative does |
| Classification.AlternativeAtIs | src/workflow.ts:219 | for alternatives made of letters, the alternative taken at a position is w iff w is an alternative occurring there as a whole word |
| Classification.ScanFindsEveryWord | src/workflow.ts:219 | for any list of letter-word alternatives (the topic pattern is one), the global match, which resumes after each match, finds the same words as looking at every position |
| Classification.WordsFromMembers | src/workflow.ts:219 | for any list of letter-word alternatives, a word is matched iff it is an alternative and occurs as a whole word somewhere |
| Classification.FoundWordsSpec | src/workflow.ts:219-220 | for any such alternatives, the de-duplicated matches have no repeats and are exactly the alternatives occurring as whole words, in order of first appearance |
| Classification.TopicTextSpec | src/workflow.ts:219-220 | for alternatives without commas and other than "general", the topic text is "general" iff nothing matches, and otherwise splits back into the first three distinct matches |
| Classification.TopicTextNonEmpty | src/workflow.ts:219-220 | for such alternatives the topic text is never empty |
| Classification.ScanMatches | src/workflow.ts:219 | for non-empty alternatives (the topic pattern has only such), the global regular-expression match: scanning left to right, a match resumes after the matched word; `ScanFindsEveryWord` and `WordsFromMembers` state what it finds |
| Classification.Dedup | src/workflow.ts:220 | `[...new Set(xs)]`; `DedupSpec` states its properties |
| Classification.TopicText | src/workflow.ts:219-220 | `keywords ? [...new Set(keywords)].slice(0, 3).join(', ') : 'general'` over the matches of non-empty alternatives; `TopicTextSpec` states its meaning |
| Classification.KeywordTopics | src/workflow.ts:219-220 | the keyword topic fallback over the lower-cased content; `KeywordTopicsSpec` states its meaning |
| Classification.DedupSpec | src/workflow.ts:220 | `[...new Set(xs)]` has no repeats, the same members as `xs`, and keeps the order of first appearance |
| Classification.VocabularyWords | src/workflow.ts:219 | the eight alternatives of the topic pattern are non-empty lower-case letter words, none containing a comma or equal to "general" |
| Classification.FoundTopicsSpec | src/workflow.ts:219-220 | the de-duplicated matches are exactly the vocabulary words occurring as whole words, in order of first appearance |
| Classification.KeywordTopicsSpec | src/workflow.ts:219-220 | the fallback topics are "general" iff no vocabulary word occurs; otherwise they split back into the first three found topics |
| Classification.KeywordTopicsNonEmpty | src/workflow.ts:220 | the fallback topics are never empty |
| Classification.KeywordTopicsExample | src/workflow.ts:219-220 | "Found a bug in the dashboard API" gives "bug, dashboard, api" |
| Classification.ChatSentiment | src/workflow.ts:121-174 | the sentiment step's value: the chat reading, or the keyword fallback when the call throws; never an empty label |
| Classification.ClassifierSentiment | src/index.ts:203-223 | the direct path's sentiment: the classifier reading, or the keyword fallback when the call throws; never an empty label |
| Classification.Topics | src/workflow.ts:185-222 | the topic step's value: the chat answer, or the vocabulary scan when the call throws; never empty |
| Store.Classified | src/workflow.ts:245-255 | the UPDATE sets sentiment, score, topics, status 'processed' and processed = 1, and changes no other column |
| Store.UpdateRow | src/workflow.ts:245-255 | the UPDATE with `WHERE id = ?` changes only that row, and changes nothing when the id is absent |
| Store.UpdateRowConsistent | src/workflow.ts:245-255 | writing a non-empty label and non-empty topics keeps every processed row fully classified |
| Store.DistinctCard | src/index.ts:292-309 | a list of distinct ids is as long as the set of its ids |
| Store.FeedbackTable.Find | src/workflow.ts:63-75 | the point read returns the row iff the id is present |
| Store.FeedbackTable.Update | src/index.ts:250-254 | the table after the UPDATE is `UpdateRow` of the table before |
| Store.FeedbackTable.Insert | src/index.ts:136-168 | the insert adds the row under the next row id, which no row had, and keeps row ids positive and at most the last one |
| Store.PendingSet | src/index.ts:292 | `WHERE processed = 0`: the ids of the rows not yet processed |
| Store.FeedbackTable.PendingIds | src/index.ts:292-293 | every id with processed = 0 exactly once, so the list is as long as the pending set |
| Workflow.ChosenParams | src/workflow.ts:28 | `payload \|\| params \|\| input?.params \|\| {}`: the first parameter object present, else an empty one |
| Workflow.OrId | src/workflow.ts:34-37 | `\|\|` between ids already filtered for truthiness: the first present one |
| Workflow.TruthyId | src/workflow.ts:34-37 | an id is taken exactly when the params object is present and its `feedbackId` is present and non-zero, and then it is that id |
| Workflow.ExtractFeedbackId | src/workflow.ts:28-45 | the extracted id is never 0 |
| Workflow.ExtractFeedbackIdFirstTruthy | src/workflow.ts:28-37 | the id is the first truthy id among payload, params and input; there is none iff all three are missing or 0 |
| Workflow.Retrieve | src/workflow.ts:56-93 | the first step succeeds iff the DB is bound, the read works and the row exists; then it carries the row and skip = processed; a missing row throws "not found" |
| Workflow.Analyze | src/workflow.ts:112-177 | the sentiment step throws iff the AI binding is missing, and otherwise yields a non-empty `ChatSentiment` |
| Workflow.Extract | src/workflow.ts:184-225 | the topic step throws iff the AI binding is missing, and otherwise yields non-empty `Topics` |
| Workflow.SaveFailure | src/workflow.ts:238-266 | the save step succeeds iff the DB is bound and the UPDATE does not throw |
| Workflow.RunSpec | src/workflow.ts:13-298 | the run as a function of the event, the bindings, the AI answers, the table and the journal; the Run… and Process… lemmas state its properties |
| Workflow.FetchStep | src/workflow.ts:56-93 | `retrieve-feedback` as the run sees it: the recorded value, or the read when none is recorded |
| Workflow.ProcessSpec | src/workflow.ts:112-281 | the analyse, extract and save steps after retrieval, each taking its recorded value when present |
| Workflow.FeedbackWorkflow.Run | src/workflow.ts:13-298 | the imperative run returns, writes and records exactly what `RunSpec` says, and does not change the table's last row id |
| Workflow.FeedbackWorkflow.Process | src/workflow.ts:112-281 | the three steps after retrieval return, write and record exactly what `ProcessSpec` says, and do not change the table's last row id |
| Workflow.FeedbackWorkflow.RetrieveFeedback | src/workflow.ts:56-93 | returns the recorded row when the step already completed; otherwise it runs the read and records the result only on success |
| Workflow.FeedbackWorkflow.AnalyzeSentiment | src/workflow.ts:112-177 | returns the recorded label when present; otherwise the step body, recorded only on success |
| Workflow.FeedbackWorkflow.ExtractTopics | src/workflow.ts:184-225 | returns the recorded topics when present; otherwise the step body, recorded only on success |
| Workflow.FeedbackWorkflow.SaveResults | src/workflow.ts:238-266 | updates the row and records the step only when it was not saved before and the UPDATE goes through; on failure the table is unchanged |
| Workflow.ProcessJournal | src/workflow.ts:112-266 | the steps after retrieval keep the recorded retrieval and record only non-empty labels and topics |
| Workflow.ProcessReturns | src/workflow.ts:238-281 | when those steps return, every step is recorded and the result carries the recorded label and topics |
| Workflow.ProcessRows | src/workflow.ts:238-266 | those steps leave the table as it was, or return and classify their own row with the recorded values |
| Workflow.ProcessConsistent | src/workflow.ts:238-266 | those steps keep every processed row fully classified |
| Workflow.ProcessReplay | src/workflow.ts:112-281 | once those steps returned, replaying them with the journal they left returns the same and changes nothing, under any bindings and AI |
| Workflow.RunWithoutId | src/workflow.ts:45-50 | without a truthy id the run throws before any step and nothing changes |
| Workflow.RunNotFound | src/workflow.ts:79-82 | for an absent row the run throws "not found" and no row changes |
| Workflow.RunAlreadyProcessed | src/workflow.ts:87-106 | a processed row gives the early answer with no change, and running the instance again gives the same answer and state under any bindings and AI |
| Workflow.RunWithoutAi | src/workflow.ts:116-119 | without the AI binding an unprocessed row makes the run throw instead of falling back, with nothing written |
| Workflow.RunCompletes | src/workflow.ts:238-281 | with both bindings, only the target row changes: it gets the sentiment, score and topics of steps 2 and 3, status 'processed' and processed = 1; the result carries the same values |
| Workflow.RunChangesOnlyItsRow | src/workflow.ts:238-297 | every run leaves the table as it was or classifies its own row with the values it returns; a failed run never changes it |
| Workflow.RunConsistent | src/workflow.ts:238-266 | runs keep every processed row fully classified |
| Workflow.RunReplayAfterSaveFailure | src/workflow.ts:259-265 | after a failed save the row stays unprocessed, and the next attempt saves the recorded classification whatever the AI answers then |
| Workflow.RunReplayAfterSuccess | src/workflow.ts:270-281 | a run that returned is final: running the instance again returns the same value and changes nothing |
| Api.DirectSpec | src/index.ts:188-258 | the direct path never throws; it changes only its row; a missing DB, a failing read or UPDATE, or an absent row leaves the table unchanged; otherwise the row becomes `Classified` with the classifier or keyword sentiment and the topics (status 'processed', processed = 1, every other column kept) |
| Api.ProcessFeedbackWithAI | src/index.ts:188-258 | the imperative direct path leaves exactly the table `DirectSpec` describes |
| Api.DirectSpecLocal | src/index.ts:196-254 | what the direct path writes to a row depends on that row alone |
| Api.DirectConsistent | src/index.ts:250-254 | the direct path keeps every processed row fully classified |
| Api.ProcessedRowDivergence | src/index.ts:196-200 | on a processed row the workflow changes nothing while the direct path classifies it again |
| Api.MissingAiDivergence | src/index.ts:206-223 | without the AI binding the workflow throws, while the direct path classifies by keywords |
| Api.FallbacksAgree | src/index.ts:215-246 | when every AI call throws, both copies write the same classification |
| Api.FeedbackQuery | src/index.ts:101-113 | the query text: the base SELECT, a source filter, a sentiment filter, then ORDER BY with LIMIT and OFFSET placeholders |
| Api.AppendedPlaceholders | src/index.ts:101-113 | appending one-placeholder filters and the two-placeholder paging clause to a placeholder-free query adds exactly their placeholders |
| Api.FeedbackQueryPlaceholders | src/index.ts:101-113 | the query has one `?` per given filter plus two for paging |
| Api.BuildFeedbackQuery | src/index.ts:96-114 | the number of `?` equals the number of parameters; parameters are [source if non-empty, sentiment if non-empty, parseInt(limit \|\| '100'), parseInt(offset \|\| '0')] |
| Api.DefaultPaging | src/index.ts:98-99 | a missing or empty limit and offset page from 0 with 100 rows |
| Api.NewRow | src/index.ts:152-165 | the inserted row has every classification column null, processed = 0, and the given status (even an empty one) or 'pending' |
| Api.InstanceId | src/index.ts:173 | the instance id `feedback-${id}`; `InstanceIdInjective` states one instance per row |
| Api.CreatedEvent | src/index.ts:172-175 | the event an instance created with `params: { feedbackId }` receives: the params as its payload; `PostedRowIsClassified` states the instance finds the id |
| Api.InstanceIdInjective | src/index.ts:173 | two rows share the instance id `feedback-<id>` iff they are the same row |
| Api.PostedRowIsClassified | src/index.ts:172-175 | the created instance finds the new id in its payload, and a first attempt with both bindings returns the chat sentiment and topics and leaves the new row processed, with status 'processed' and those values |
| Api.PostFeedback | src/index.ts:124-185 | 503 without the DB, with nothing changed; otherwise the row is inserted under a fresh id that becomes the last row id; with the workflow binding and a successful create the instance `feedback-<id>` is started and the table is just the insert; without the binding or when create throws, no instance and the new row is classified directly |
| Api.InsertConsistent | src/index.ts:152-165 | inserting a new row keeps every processed row fully classified |
| Api.ProcessPending | src/index.ts:284-312 | 503 without the DB; without the workflow binding and with a pending row, the handler rejects and nothing changes; otherwise it reports the number of pending rows at query time, classifies directly exactly the pending rows whose instance creation fails, starts one distinct instance per other pending row, and leaves every other row alone |
| Api.SweptRow | src/index.ts:296-307 | the row a sweep leaves: a pending row in `failing` classified directly under its own database faults, every other row as it was |
| Api.SweepRows | src/index.ts:296-307 | the loop over distinct unprocessed ids: each id's row becomes its `SweptRow`, other rows are kept, and the started instances are distinct and exactly those of the ids outside `failing` |
| Api.SweptStep | src/index.ts:296-304 | one callback of the `map`: the rows swept so far stay swept and the next one joins them |
| Api.FreshInstance | src/index.ts:297-299 | the instance of a pending id is not among those started for the ids before it |
| Api.InstancesOfPending | src/index.ts:292-299 | the instances started along the pending list are those of the pending set's ids outside `failing` |
| Api.CountLabel | src/index.ts:356-359 | the filtered count never exceeds the number of rows |
| Api.CountLabelPositions | src/index.ts:356-359 | the count is the number of positions whose sentiment is exactly that label |
| Api.CountLabelsDisjoint | src/index.ts:355-360 | the negative and positive counts together never exceed the number of rows |
| Api.ChatFallback | src/index.ts:355-363 | complaint/negative questions report the exact-NEGATIVE count; otherwise positive/good questions report the exact-POSITIVE count; otherwise the row count |
| Api.NegativeReply | src/index.ts:357 | the negative-count template literal: the printed count between a fixed opening and closing, so longer than the count |
| Api.PositiveReply | src/index.ts:360 | the positive-count template literal, likewise |
| Api.OverviewReply | src/index.ts:362 | the row-count template literal, likewise |
| Api.NegativeReplyInjective | src/index.ts:357 | the negative reply for two counts is the same iff the counts are equal |
| Api.ChatAnswer | src/index.ts:336-364 | the chat reply is never empty: a non-empty `response`, else a non-empty `text`, else the apology when both are missing or empty; the keyword fallback when the call throws |

## Left out

- Logging, `JSON.stringify` of events, CORS headers, routing, the response objects and the dashboard page.
- Timestamps (`new Date().toISOString()`) are a parameter of the insert.
- The D1 engine's own semantics are not modelled:
  - `ORDER BY timestamp`;
  - `LIMIT` and `OFFSET` execution;
  - the aggregates of `handleGetStats`;
  - the `analysis_cache` insert of `handleChat`.
  - The filter query is modelled as text plus parameters; the ten chat rows are a parameter.
- `handleAnalyzeFeedback` and `handleGetStats` are outside the classification core.
- Workers AI behaviour is an oracle. The prompts sent to it are not modelled. The actual shape of the classifier's reply is not modelled either; only the fields the code reads are.
- The retries of a failing step are not modelled. Their timing and back-off are also not modelled. A failed step ends the attempt, and a later attempt starts from the recorded steps.
- A workflow instance started by `POST /api/feedback` or by the sweep runs later. It is not run inside those handlers; `PostedRowIsClassified` states what its first attempt does.
- `Promise.all` in the sweep is modelled as a sequential loop. The fallbacks touch distinct rows, so the order does not matter.
- Case mapping covers ASCII letters only. Full Unicode `toLowerCase`/`toUpperCase` is not modelled.
- `parseInt` is modelled for an optional minus sign followed by digits. Leading whitespace, `+` and radix prefixes are not.
- A score is an exact real. Floating-point rounding and `NaN` scores are not modelled.
- An INSERT, a sweep query or a chat query that throws is not modelled. In the source these reject the handler's promise outside its `try`.
- Missing `source`/`content` in the POST body is not modelled, and neither are non-numeric feedback ids.
- `POST /api/feedback` defers the direct classification with `ctx.waitUntil`, so the response is sent before it finishes. The model applies it before returning; the final table is the same, but the moment the response goes out is not modelled.
- Workflow.RunSpec: a step value recorded by an earlier attempt is taken as given. The durable storage of those values is not modelled.
