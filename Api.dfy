/** The request handlers of src/index.ts that feed or mirror the workflow: the
    synchronous classifier `processFeedbackWithAI`, the filter query of
    `GET /api/feedback`, the insert of `POST /api/feedback`, the backlog sweep of
    `POST /api/process-pending` and the keyword fallback of `POST /api/chat`. */
module Api {
  import opened Text
  import opened Classification
  import opened Store
  import opened Workflow

  // ---------------------------------------------------------------------------
  // processFeedbackWithAI

  /** The table after `processFeedbackWithAI(env, id)`. It never throws: a
      missing database, a failing read, an absent row and a failing UPDATE all
      leave the table as it was. A missing AI binding makes the calls throw, so
      the keyword rules apply. The `processed` flag is not consulted. */
  function DirectSpec(env: Bindings, faults: StoreFaults, labelReply: Call<LabelReply>,
                      topicReply: Call<ChatReply>, rows: map<int, Feedback>, id: int): (r: map<int, Feedback>)
    ensures r.Keys == rows.Keys
    ensures forall k :: k in rows && k != id ==> r[k] == rows[k]
    ensures !env.hasDb || faults.readFails || faults.writeFails || id !in rows ==> r == rows
    ensures env.hasDb && !faults.readFails && !faults.writeFails && id in rows ==>
      var content := rows[id].content;
      var s := ClassifierSentiment(content, if env.hasAi then labelReply else Threw);
      var t := Topics(content, if env.hasAi then topicReply else Threw);
      && r[id] == Classified(rows[id], s, t)
      && r[id].processed && r[id].status == "processed"
      && r[id].sentiment == Some(s.name) && r[id].sentimentScore == Some(s.score)
      && r[id].topics == Some(t)
      && r[id].content == content && r[id].source == rows[id].source
  {
    if !env.hasDb || faults.readFails || id !in rows || faults.writeFails then rows
    else
      var content := rows[id].content;
      UpdateRow(rows, id,
                ClassifierSentiment(content, if env.hasAi then labelReply else Threw),
                Topics(content, if env.hasAi then topicReply else Threw))
  }

  /** `processFeedbackWithAI`: the label and score start as `neutral`/0.5 and the
      topics as `general`; each is replaced by the model's answer or, when the
      call throws, by the keyword rules. */
  method ProcessFeedbackWithAI(env: Bindings, db: FeedbackTable, faults: StoreFaults,
                               labelReply: Call<LabelReply>, topicReply: Call<ChatReply>, id: int)
    modifies db
    ensures db.rows == DirectSpec(env, faults, labelReply, topicReply, old(db.rows), id)
    ensures db.lastRowId == old(db.lastRowId)
  {
    if !env.hasDb {
      return;
    }
    if faults.readFails {
      return;
    }
    var feedback := db.Find(id);
    if feedback.None? {
      return;
    }
    var content := feedback.value.content;

    var sentiment := "neutral";
    var sentimentScore := 0.5;
    var sentimentCall := if env.hasAi then labelReply else Threw;
    match sentimentCall {
      case Returned(answer) =>
        sentiment := FirstTruthy(answer.labelText, answer.sentiment, "neutral");
        sentimentScore := FirstNonZero(answer.score, answer.confidence, 0.5);
      case Threw =>
        var lower := ToLower(content);
        if Contains(lower, "great") || Contains(lower, "love") || Contains(lower, "excellent") {
          sentiment := "POSITIVE";
          sentimentScore := 0.8;
        } else if Contains(lower, "bug") || Contains(lower, "crash") || Contains(lower, "fix") {
          sentiment := "NEGATIVE";
          sentimentScore := 0.3;
        }
    }

    var topics := "general";
    var topicCall := if env.hasAi then topicReply else Threw;
    match topicCall {
      case Returned(answer) =>
        topics := FirstTruthy(answer.response, answer.text, "general");
      case Threw =>
        topics := KeywordTopics(content);
    }

    if faults.writeFails {
      return;
    }
    db.Update(id, Sentiment(sentiment, sentimentScore), topics);
  }

  /** The direct path's effect on its row depends on that row alone. */
  lemma DirectSpecLocal(env: Bindings, faults: StoreFaults, labelReply: Call<LabelReply>,
                        topicReply: Call<ChatReply>, rows1: map<int, Feedback>, rows2: map<int, Feedback>, id: int)
    requires id in rows1 && id in rows2 && rows1[id] == rows2[id]
    ensures DirectSpec(env, faults, labelReply, topicReply, rows1, id)[id] ==
            DirectSpec(env, faults, labelReply, topicReply, rows2, id)[id]
  {
  }

  /** The direct path keeps the table consistent. */
  lemma DirectConsistent(env: Bindings, faults: StoreFaults, labelReply: Call<LabelReply>,
                         topicReply: Call<ChatReply>, rows: map<int, Feedback>, id: int)
    requires Consistent(rows)
    ensures Consistent(DirectSpec(env, faults, labelReply, topicReply, rows, id))
  {
    if env.hasDb && !faults.readFails && !faults.writeFails && id in rows {
      var content := rows[id].content;
      UpdateRowConsistent(rows, id,
                          ClassifierSentiment(content, if env.hasAi then labelReply else Threw),
                          Topics(content, if env.hasAi then topicReply else Threw));
    }
  }

  /** The two copies disagree on a processed row: the workflow returns early
      and leaves it alone, while the direct path classifies it again. */
  lemma ProcessedRowDivergence(e: Event, env: Bindings, faults: StoreFaults,
                               sr: Call<ChatReply>, tr: Call<ChatReply>, labelReply: Call<LabelReply>,
                               rows: map<int, Feedback>)
    requires ExtractFeedbackId(e).Some?
    requires var id := ExtractFeedbackId(e).value; id in rows && rows[id].processed
    requires env.hasDb && !faults.readFails && !faults.writeFails
    ensures var id := ExtractFeedbackId(e).value;
      var content := rows[id].content;
      && RunSpec(e, env, faults, sr, tr, rows, Fresh).rows == rows
      && DirectSpec(env, faults, labelReply, tr, rows, id) ==
           UpdateRow(rows, id, ClassifierSentiment(content, if env.hasAi then labelReply else Threw),
                     Topics(content, if env.hasAi then tr else Threw))
  {
    RunAlreadyProcessed(e, env, faults, sr, tr, rows, env, faults, sr, tr);
  }

  /** The two copies disagree without the AI binding: the workflow throws and
      leaves the row pending, while the direct path classifies it by keywords. */
  lemma MissingAiDivergence(e: Event, env: Bindings, faults: StoreFaults,
                            sr: Call<ChatReply>, tr: Call<ChatReply>, labelReply: Call<LabelReply>,
                            rows: map<int, Feedback>)
    requires ExtractFeedbackId(e).Some?
    requires var id := ExtractFeedbackId(e).value; id in rows && !rows[id].processed
    requires env.hasDb && !env.hasAi && !faults.readFails && !faults.writeFails
    ensures var id := ExtractFeedbackId(e).value;
      var content := rows[id].content;
      && RunSpec(e, env, faults, sr, tr, rows, Fresh).outcome == Thrown(AiUnavailable)
      && RunSpec(e, env, faults, sr, tr, rows, Fresh).rows == rows
      && DirectSpec(env, faults, labelReply, tr, rows, id) ==
           UpdateRow(rows, id, KeywordSentiment(content), KeywordTopics(content))
  {
    RunWithoutAi(e, env, faults, sr, tr, rows);
  }

  /** When every AI call throws, both copies write the same classification to an
      unprocessed row: their keyword rules agree. */
  lemma FallbacksAgree(e: Event, env: Bindings, faults: StoreFaults, rows: map<int, Feedback>)
    requires ExtractFeedbackId(e).Some?
    requires var id := ExtractFeedbackId(e).value; id in rows && !rows[id].processed
    requires env.hasDb && env.hasAi && !faults.readFails && !faults.writeFails
    ensures RunSpec(e, env, faults, Threw, Threw, rows, Fresh).rows ==
            DirectSpec(env, faults, Threw, Threw, rows, ExtractFeedbackId(e).value)
  {
    var id := ExtractFeedbackId(e).value;
    RunCompletes(e, env, faults, Threw, Threw, rows);
    var content := rows[id].content;
    assert ChatSentiment(content, Threw) == ClassifierSentiment(content, Threw);
    var x := RunSpec(e, env, faults, Threw, Threw, rows, Fresh);
    var d := DirectSpec(env, faults, Threw, Threw, rows, id);
    assert x.rows[id] == d[id];
  }

  // ---------------------------------------------------------------------------
  // handleGetFeedback: the filter query

  /** A bound parameter: a string, or a number (`None` stands for `NaN`). */
  datatype QueryParam = Text(text: string) | Number(n: Option<int>)

  /** A string with no `c` counts none. */
  lemma {:induction false} CountCharAbsent(s: string, c: char)
    requires c !in s
    ensures CountChar(s, c) == 0
  {
    if |s| > 0 {
      assert forall k :: 0 <= k < |s[1..]| ==> s[1..][k] == s[k + 1];
      CountCharAbsent(s[1..], c);
    }
  }

  /** A string whose only `c` is its last character counts one. */
  lemma CountCharLast(s: string, c: char)
    requires |s| > 0 && s[|s| - 1] == c && c !in s[..|s| - 1]
    ensures CountChar(s, c) == 1
  {
    assert s == s[..|s| - 1] + [c];
    CountCharAppend(s[..|s| - 1], [c], c);
    CountCharAbsent(s[..|s| - 1], c);
  }

  const SelectAll: string := "SELECT * FROM feedback WHERE 1=1"
  const SourceFilter: string := " AND source = ?"
  const SentimentFilter: string := " AND sentiment = ?"
  const LimitClause: string := " ORDER BY timestamp DESC LIMIT ?"
  const OffsetClause: string := " OFFSET ?"
  const Paging: string := LimitClause + OffsetClause

  lemma SelectAllPlaceholders()
    ensures CountChar(SelectAll, '?') == 0
  {
    CountCharAbsent(SelectAll, '?');
  }

  lemma SourcePlaceholder()
    ensures CountChar(SourceFilter, '?') == 1
  {
    CountCharLast(SourceFilter, '?');
  }

  lemma SentimentPlaceholder()
    ensures CountChar(SentimentFilter, '?') == 1
  {
    CountCharLast(SentimentFilter, '?');
  }

  lemma LimitPlaceholder()
    ensures CountChar(LimitClause, '?') == 1
  {
    CountCharLast(LimitClause, '?');
  }

  lemma OffsetPlaceholder()
    ensures CountChar(OffsetClause, '?') == 1
  {
    CountCharLast(OffsetClause, '?');
  }

  lemma PagingPlaceholders()
    ensures CountChar(Paging, '?') == 2
  {
    LimitPlaceholder();
    OffsetPlaceholder();
    CountCharAppend(LimitClause, OffsetClause, '?');
  }

  /** The text of the filter query. */
  function FeedbackQuery(bySource: bool, bySentiment: bool): string {
    var base := if bySource then SelectAll + SourceFilter else SelectAll;
    var filtered := if bySentiment then base + SentimentFilter else base;
    filtered + Paging
  }

  /** Appending the optional filters and the paging clause to a query adds
      their placeholders. */
  lemma AppendedPlaceholders(base: string, source: string, sentiment: string, paging: string,
                             bySource: bool, bySentiment: bool)
    requires CountChar(base, '?') == 0 && CountChar(source, '?') == 1
    requires CountChar(sentiment, '?') == 1 && CountChar(paging, '?') == 2
    ensures var b := if bySource then base + source else base;
      var f := if bySentiment then b + sentiment else b;
      CountChar(f + paging, '?') == (if bySource then 1 else 0) + (if bySentiment then 1 else 0) + 2
  {
    var b := if bySource then base + source else base;
    if bySource {
      CountCharAppend(base, source, '?');
    }
    var f := if bySentiment then b + sentiment else b;
    if bySentiment {
      CountCharAppend(b, sentiment, '?');
    }
    CountCharAppend(f, paging, '?');
  }

  /** The query has one placeholder per filter, and two for paging. */
  lemma FeedbackQueryPlaceholders(bySource: bool, bySentiment: bool)
    ensures CountChar(FeedbackQuery(bySource, bySentiment), '?') ==
      (if bySource then 1 else 0) + (if bySentiment then 1 else 0) + 2
  {
    SelectAllPlaceholders();
    SourcePlaceholder();
    SentimentPlaceholder();
    PagingPlaceholders();
    AppendedPlaceholders(SelectAll, SourceFilter, SentimentFilter, Paging, bySource, bySentiment);
  }

  /** The query and parameters of `GET /api/feedback`: a source and a sentiment
      filter when those search parameters are non-empty, then paging by `limit`
      (default "100") and `offset` (default "0"), each through `parseInt`. Every
      `?` has its parameter. */
  method BuildFeedbackQuery(source: Option<string>, sentiment: Option<string>,
                            limit: Option<string>, offset: Option<string>)
    returns (query: string, params: seq<QueryParam>)
    ensures CountChar(query, '?') == |params|
    ensures query == FeedbackQuery(Truthy(source), Truthy(sentiment))
    ensures params ==
      (if Truthy(source) then [Text(source.value)] else [])
      + (if Truthy(sentiment) then [Text(sentiment.value)] else [])
      + [Number(ParseInt(FirstTruthy(limit, None, "100"))), Number(ParseInt(FirstTruthy(offset, None, "0")))]
  {
    var limitValue := ParseInt(FirstTruthy(limit, None, "100"));
    var offsetValue := ParseInt(FirstTruthy(offset, None, "0"));

    query := SelectAll;
    params := [];
    if Truthy(source) {
      query := query + SourceFilter;
      params := params + [Text(source.value)];
    }
    if Truthy(sentiment) {
      query := query + SentimentFilter;
      params := params + [Text(sentiment.value)];
    }
    query := query + Paging;
    params := params + [Number(limitValue), Number(offsetValue)];
    FeedbackQueryPlaceholders(Truthy(source), Truthy(sentiment));
  }

  /** Without `limit` and `offset` (or with empty ones) the page is the first
      hundred rows. */
  lemma DefaultPaging(limit: Option<string>, offset: Option<string>)
    requires !Truthy(limit) && !Truthy(offset)
    ensures ParseInt(FirstTruthy(limit, None, "100")) == Some(100)
    ensures ParseInt(FirstTruthy(offset, None, "0")) == Some(0)
  {
    assert IntToString(100) == "100" by {
      assert NatToString(100) == NatToString(10) + [DigitChar(0)];
      assert NatToString(10) == NatToString(1) + [DigitChar(0)];
    }
    ParseIntToString(100);
    ParseIntToString(0);
  }

  // ---------------------------------------------------------------------------
  // handlePostFeedback

  /** The JSON body of `POST /api/feedback`, as far as the insert reads it. */
  datatype PostBody = PostBody(source: string, content: string, author: Option<string>, status: Option<string>)

  datatype PostResponse = ServiceUnavailable | Accepted(id: int)

  /** The inserted row: no classification yet, not processed, and the given
      status (`??`, so an empty status is kept) or "pending". */
  function NewRow(body: PostBody, timestamp: string): (f: Feedback)
    ensures !f.processed && WellClassified(f)
    ensures f.sentiment.None? && f.sentimentScore.None? && f.topics.None?
    ensures f.category.None? && f.urgency.None? && f.summary.None?
    ensures f.status == (if body.status.Some? then body.status.value else "pending")
    ensures f.source == body.source && f.content == body.content && f.author == body.author
    ensures f.timestamp == timestamp
  {
    Feedback(body.source, body.content, body.author, timestamp, None, None, None, None, None, None,
             if body.status.Some? then body.status.value else "pending", false)
  }

  /** The workflow instance id for a row. */
  function InstanceId(id: int): string {
    "feedback-" + IntToString(id)
  }

  /** One instance id per row: different rows never share an instance. */
  lemma InstanceIdInjective(a: int, b: int)
    ensures InstanceId(a) == InstanceId(b) <==> a == b
  {
    if InstanceId(a) == InstanceId(b) {
      assert IntToString(a) == InstanceId(a)[9..] == InstanceId(b)[9..] == IntToString(b);
      IntToStringInjective(a, b);
    }
  }

  /** The event a created instance receives: `params` arrive as the payload. */
  function CreatedEvent(id: int): Event {
    Event(Some(Params(Some(id))), None, None)
  }

  /** A posted row reaches the workflow: its id is positive, so the instance
      finds it, and a first attempt with both bindings classifies it. */
  lemma PostedRowIsClassified(id: int, body: PostBody, timestamp: string, rows: map<int, Feedback>,
                              env: Bindings, faults: StoreFaults, sr: Call<ChatReply>, tr: Call<ChatReply>)
    requires id > 0
    requires env.hasDb && env.hasAi && !faults.readFails && !faults.writeFails
    ensures ExtractFeedbackId(CreatedEvent(id)) == Some(id)
    ensures var x := RunSpec(CreatedEvent(id), env, faults, sr, tr, rows[id := NewRow(body, timestamp)], Fresh);
      var sentiment := ChatSentiment(body.content, sr);
      var topics := Topics(body.content, tr);
      && x.outcome == Ok(Completed(id, sentiment, topics))
      && x.rows[id].processed && x.rows[id].status == "processed"
      && x.rows[id].sentiment == Some(sentiment.name) && x.rows[id].sentimentScore == Some(sentiment.score)
      && x.rows[id].topics == Some(topics)
  {
    RunCompletes(CreatedEvent(id), env, faults, sr, tr, rows[id := NewRow(body, timestamp)]);
  }

  /** `POST /api/feedback`: 503 without the database; otherwise insert the row
      and start its workflow instance, or, when the instance cannot be created,
      classify the row directly. `createFails` says whether `create` throws when
      the workflow binding is present; without the binding the call throws
      inside the `try` all the same. The instance itself runs later and is not
      part of this call. */
  method PostFeedback(env: Bindings, db: FeedbackTable, body: PostBody, timestamp: string,
                      createFails: bool, faults: StoreFaults,
                      labelReply: Call<LabelReply>, topicReply: Call<ChatReply>)
    returns (response: PostResponse, instance: Option<string>)
    requires db.Valid()
    modifies db
    ensures db.Valid()
    ensures !env.hasDb ==>
      response == ServiceUnavailable && instance.None? && db.rows == old(db.rows) && db.lastRowId == old(db.lastRowId)
    ensures env.hasDb ==>
      var id := old(db.lastRowId) + 1;
      var inserted := old(db.rows)[id := NewRow(body, timestamp)];
      && response == Accepted(id) && id !in old(db.rows) && db.lastRowId == id
      && (env.hasWorkflow && !createFails ==> instance == Some(InstanceId(id)) && db.rows == inserted)
      && (!env.hasWorkflow || createFails ==>
            instance.None? && db.rows == DirectSpec(env, faults, labelReply, topicReply, inserted, id))
  {
    if !env.hasDb {
      return ServiceUnavailable, None;
    }
    var feedbackId := db.Insert(NewRow(body, timestamp));
    if !env.hasWorkflow || createFails {
      ProcessFeedbackWithAI(env, db, faults, labelReply, topicReply, feedbackId);
      instance := None;
    } else {
      instance := Some(InstanceId(feedbackId));
    }
    response := Accepted(feedbackId);
  }

  /** Inserting a new row keeps the table consistent. */
  lemma InsertConsistent(rows: map<int, Feedback>, id: int, body: PostBody, timestamp: string)
    requires Consistent(rows)
    ensures Consistent(rows[id := NewRow(body, timestamp)])
  {
  }

  // ---------------------------------------------------------------------------
  // handleProcessPending

  /** The sweep's answer: 503, the handler's promise rejected, or the count. */
  datatype SweepResult = SweepUnavailable | SweepRejected | Swept(processed: nat)

  /** The row `k` ends with after the sweep, which started from `rows`: a
      pending row whose instance could not be created is classified directly,
      every other row is as it was. */
  function SweptRow(env: Bindings, faults: int -> StoreFaults, failing: set<int>,
                    labelReply: int -> Call<LabelReply>, topicReply: int -> Call<ChatReply>,
                    rows: map<int, Feedback>, k: int): Feedback
    requires k in rows
  {
    if k in failing && !rows[k].processed then DirectSpec(env, faults(k), labelReply(k), topicReply(k), rows, k)[k]
    else rows[k]
  }

  /** In a list without repetitions, no element occurs before its position. */
  lemma DistinctNotBefore(xs: seq<int>, i: int)
    requires Distinct(xs) && 0 <= i < |xs|
    ensures xs[i] !in xs[..i]
  {
    forall j | 0 <= j < i ensures xs[..i][j] != xs[i] {
      assert xs[..i][j] == xs[j];
    }
  }

  /** The instance of the i-th pending id is not among those started for the
      ids before it. */
  lemma FreshInstance(pending: seq<int>, i: int, failing: set<int>, instances: seq<string>)
    requires Distinct(pending) && 0 <= i < |pending|
    requires forall s :: s in instances <==>
      exists j :: 0 <= j < i && pending[j] !in failing && s == InstanceId(pending[j])
    ensures InstanceId(pending[i]) !in instances
  {
    if InstanceId(pending[i]) in instances {
      var j :| 0 <= j < i && pending[j] !in failing && InstanceId(pending[i]) == InstanceId(pending[j]);
      InstanceIdInjective(pending[i], pending[j]);
    }
  }

  /** Appending a new element keeps a list free of repetitions. */
  lemma DistinctSnoc(xs: seq<string>, x: string)
    requires Distinct(xs) && x !in xs
    ensures Distinct(xs + [x])
  {
    forall i, j | 0 <= i < j < |xs + [x]| ensures (xs + [x])[i] != (xs + [x])[j] {
      if j == |xs| {
        assert (xs + [x])[i] == xs[i];
      }
    }
  }

  /** The instances started for the positions of a list of the pending ids are
      those of the pending ids outside `failing`. */
  lemma InstancesOfPending(pending: seq<int>, pendingSet: set<int>, failing: set<int>, instances: seq<string>)
    requires forall k :: k in pending <==> k in pendingSet
    requires forall s :: s in instances <==>
      exists j :: 0 <= j < |pending| && pending[j] !in failing && s == InstanceId(pending[j])
    ensures forall s :: s in instances <==> exists k :: k in pendingSet && k !in failing && s == InstanceId(k)
  {
    forall s ensures s in instances <==> exists k :: k in pendingSet && k !in failing && s == InstanceId(k)
    {
      if s in instances {
        var j :| 0 <= j < |pending| && pending[j] !in failing && s == InstanceId(pending[j]);
        assert pending[j] in pending;
      }
      if exists k :: k in pendingSet && k !in failing && s == InstanceId(k) {
        var k :| k in pendingSet && k !in failing && s == InstanceId(k);
        assert k in pending;
        var j :| 0 <= j < |pending| && pending[j] == k;
      }
    }
  }

  /** `POST /api/process-pending`: one workflow instance per pending row, and a
      direct classification of each row whose instance could not be created
      (the ids in `failing`), each meeting its own database faults `faults(id)`.
      The reply counts the pending rows found, whatever became of them.
      Without the workflow binding, `create` throws inside the `map` callback
      before its `.catch` is attached, so when a row is pending the handler
      rejects and no row is touched. */
  method ProcessPending(env: Bindings, db: FeedbackTable, failing: set<int>, faults: int -> StoreFaults,
                        labelReply: int -> Call<LabelReply>, topicReply: int -> Call<ChatReply>)
    returns (result: SweepResult, instances: seq<string>)
    modifies db
    ensures db.lastRowId == old(db.lastRowId)
    ensures !env.hasDb ==> result == SweepUnavailable && instances == [] && db.rows == old(db.rows)
    ensures env.hasDb && !env.hasWorkflow && PendingSet(old(db.rows)) != {} ==>
      result == SweepRejected && instances == [] && db.rows == old(db.rows)
    ensures db.rows.Keys == old(db.rows).Keys
    ensures env.hasDb && (env.hasWorkflow || PendingSet(old(db.rows)) == {}) ==>
      && result == Swept(|PendingSet(old(db.rows))|)
      && (forall k :: k in old(db.rows) ==>
            db.rows[k] == SweptRow(env, faults, failing, labelReply, topicReply, old(db.rows), k))
      && (forall s :: s in instances <==>
            exists k :: k in PendingSet(old(db.rows)) && k !in failing && s == InstanceId(k))
      && Distinct(instances)
  {
    if !env.hasDb {
      return SweepUnavailable, [];
    }
    var pending := db.PendingIds();
    if !env.hasWorkflow && |pending| > 0 {
      return SweepRejected, [];
    }
    instances := SweepRows(env, db, pending, failing, faults, labelReply, topicReply);
    InstancesOfPending(pending, PendingSet(old(db.rows)), failing, instances);
    result := Swept(|pending|);
  }

  /** The `map` over the pending ids, in order: an instance per id outside
      `failing`, a direct classification of each id in it. */
  method SweepRows(env: Bindings, db: FeedbackTable, pending: seq<int>, failing: set<int>, faults: int -> StoreFaults,
                   labelReply: int -> Call<LabelReply>, topicReply: int -> Call<ChatReply>)
    returns (instances: seq<string>)
    requires Distinct(pending) && forall k :: k in pending ==> k in db.rows && !db.rows[k].processed
    modifies db
    ensures db.lastRowId == old(db.lastRowId) && db.rows.Keys == old(db.rows).Keys
    ensures forall k :: k in old(db.rows) ==>
      db.rows[k] == (if k in pending then SweptRow(env, faults, failing, labelReply, topicReply, old(db.rows), k)
                     else old(db.rows)[k])
    ensures forall s :: s in instances <==>
      exists j :: 0 <= j < |pending| && pending[j] !in failing && s == InstanceId(pending[j])
    ensures Distinct(instances)
  {
    ghost var before := db.rows;
    instances := [];
    var i := 0;
    while i < |pending|
      invariant 0 <= i <= |pending|
      invariant db.lastRowId == old(db.lastRowId)
      invariant db.rows.Keys == before.Keys
      invariant SweptUpTo(env, faults, failing, labelReply, topicReply, before, db.rows, pending[..i])
      invariant forall s :: s in instances <==>
        exists j :: 0 <= j < i && pending[j] !in failing && s == InstanceId(pending[j])
      invariant Distinct(instances)
    {
      var id := pending[i];
      DistinctNotBefore(pending, i);
      assert id in pending;
      ghost var rows := db.rows;
      if id in failing {
        ProcessFeedbackWithAI(env, db, faults(id), labelReply(id), topicReply(id), id);
      } else {
        FreshInstance(pending, i, failing, instances);
        DistinctSnoc(instances, InstanceId(id));
        instances := instances + [InstanceId(id)];
      }
      SweptStep(env, faults, failing, labelReply, topicReply, before, rows, db.rows, pending, i);
      i := i + 1;
    }
    assert pending[..i] == pending;
  }

  /** The rows of `before` whose ids are in `done` have been swept, the others
      are as they were. */
  ghost predicate SweptUpTo(env: Bindings, faults: int -> StoreFaults, failing: set<int>,
                            labelReply: int -> Call<LabelReply>, topicReply: int -> Call<ChatReply>,
                            before: map<int, Feedback>, rows: map<int, Feedback>, done: seq<int>)
  {
    && rows.Keys == before.Keys
    && forall k :: k in before ==>
         rows[k] == (if k in done then SweptRow(env, faults, failing, labelReply, topicReply, before, k)
                     else before[k])
  }

  /** One step of the sweep: the next pending id is classified directly when
      it is in `failing` and left to its workflow instance otherwise. */
  lemma SweptStep(env: Bindings, faults: int -> StoreFaults, failing: set<int>,
                  labelReply: int -> Call<LabelReply>, topicReply: int -> Call<ChatReply>,
                  before: map<int, Feedback>, rows: map<int, Feedback>, rows': map<int, Feedback>,
                  pending: seq<int>, i: int)
    requires Distinct(pending) && 0 <= i < |pending|
    requires forall k :: k in pending ==> k in before && !before[k].processed
    requires SweptUpTo(env, faults, failing, labelReply, topicReply, before, rows, pending[..i])
    requires rows' == if pending[i] in failing
                      then DirectSpec(env, faults(pending[i]), labelReply(pending[i]), topicReply(pending[i]), rows, pending[i])
                      else rows
    ensures SweptUpTo(env, faults, failing, labelReply, topicReply, before, rows', pending[..i + 1])
  {
    var id := pending[i];
    DistinctNotBefore(pending, i);
    assert id in pending;
    assert pending[..i + 1] == pending[..i] + [id];
    if id in failing {
      DirectSpecLocal(env, faults(id), labelReply(id), topicReply(id), rows, before, id);
    }
  }

  // ---------------------------------------------------------------------------
  // handleChat: the keyword fallback

  /** A row of the chat context: the ten most recent processed rows. */
  datatype RecentRow = RecentRow(content: string, sentiment: Option<string>, topics: Option<string>)

  /** `filter(f => f.sentiment === name).length`. */
  function CountLabel(rows: seq<RecentRow>, name: string): (n: nat)
    ensures n <= |rows|
  {
    if rows == [] then 0
    else CountLabel(rows[..|rows| - 1], name) + (if rows[|rows| - 1].sentiment == Some(name) then 1 else 0)
  }

  /** The count is the number of positions holding that exact name. */
  lemma {:induction false} CountLabelPositions(rows: seq<RecentRow>, name: string)
    ensures CountLabel(rows, name) == |set i | 0 <= i < |rows| && rows[i].sentiment == Some(name)|
  {
    if rows != [] {
      var front := rows[..|rows| - 1];
      CountLabelPositions(front, name);
      var small := set i | 0 <= i < |front| && front[i].sentiment == Some(name);
      var all := set i | 0 <= i < |rows| && rows[i].sentiment == Some(name);
      assert forall i :: 0 <= i < |front| ==> front[i] == rows[i];
      if rows[|rows| - 1].sentiment == Some(name) {
        assert all == small + {|rows| - 1};
      } else {
        assert all == small;
      }
    }
  }

  /** No row is counted both as negative and as positive. */
  lemma {:induction false} CountLabelsDisjoint(rows: seq<RecentRow>)
    ensures CountLabel(rows, "NEGATIVE") + CountLabel(rows, "POSITIVE") <= |rows|
  {
    if rows != [] {
      CountLabelsDisjoint(rows[..|rows| - 1]);
    }
  }

  const CountOpening: string := "Based on recent feedback, there are "
  const NegativeClosing: string := " negative feedback items. Common issues include bugs, crashes, and feature requests."
  const PositiveClosing: string := " positive feedback items. Users appreciate improvements and new features."
  const OverviewOpening: string := "I found "
  const OverviewClosing: string := " recent feedback items. Use specific questions about sentiment, topics, or trends for better insights."

  function NegativeReply(n: nat): (r: string)
    ensures |r| > |IntToString(n)|
  {
    CountOpening + IntToString(n) + NegativeClosing
  }

  function PositiveReply(n: nat): (r: string)
    ensures |r| > |IntToString(n)|
  {
    CountOpening + IntToString(n) + PositiveClosing
  }

  function OverviewReply(n: nat): (r: string)
    ensures |r| > |IntToString(n)|
  {
    OverviewOpening + IntToString(n) + OverviewClosing
  }

  /** The reply when the chat model throws: complaint/negative questions get the
      count of rows labelled exactly NEGATIVE, otherwise positive/good questions
      the count labelled exactly POSITIVE, otherwise the number of rows. */
  function ChatFallback(query: string, recent: seq<RecentRow>): (r: string)
    ensures var q := ToLower(query);
      && (Contains(q, "complaint") || Contains(q, "negative") ==> r == NegativeReply(CountLabel(recent, "NEGATIVE")))
      && ((!Contains(q, "complaint") && !Contains(q, "negative") && (Contains(q, "positive") || Contains(q, "good")))
            ==> r == PositiveReply(CountLabel(recent, "POSITIVE")))
      && ((!Contains(q, "complaint") && !Contains(q, "negative") && !Contains(q, "positive") && !Contains(q, "good"))
            ==> r == OverviewReply(|recent|))
  {
    var q := ToLower(query);
    if Contains(q, "complaint") || Contains(q, "negative") then NegativeReply(CountLabel(recent, "NEGATIVE"))
    else if Contains(q, "positive") || Contains(q, "good") then PositiveReply(CountLabel(recent, "POSITIVE"))
    else OverviewReply(|recent|)
  }

  /** The fallback reply tells different counts apart: the number it reports
      determines the count. */
  lemma NegativeReplyInjective(a: nat, b: nat)
    ensures NegativeReply(a) == NegativeReply(b) <==> a == b
  {
    if NegativeReply(a) == NegativeReply(b) {
      var p := CountOpening;
      var tail := NegativeClosing;
      var sa := IntToString(a);
      var sb := IntToString(b);
      assert NegativeReply(a)[|p|..|NegativeReply(a)| - |tail|] == sa;
      assert NegativeReply(b)[|p|..|NegativeReply(b)| - |tail|] == sb;
      IntToStringInjective(a, b);
    }
  }

  const ApologyReply: string := "I apologize, but I am unable to process your query at the moment."

  /** The chat answer: the model's `response || text`, the apology when both are
      empty, or the keyword fallback when the call throws. */
  function ChatAnswer(query: string, recent: seq<RecentRow>, reply: Call<ChatReply>): (r: string)
    ensures r != ""
    ensures reply.Threw? ==> r == ChatFallback(query, recent)
    ensures reply.Returned? && Truthy(reply.value.response) ==> r == reply.value.response.value
    ensures reply.Returned? && !Truthy(reply.value.response) && Truthy(reply.value.text) ==> r == reply.value.text.value
    ensures reply.Returned? && !Truthy(reply.value.response) && !Truthy(reply.value.text) ==> r == ApologyReply
  {
    match reply
    case Threw => ChatFallback(query, recent)
    case Returned(answer) => FirstTruthy(answer.response, answer.text, ApologyReply)
  }
}
