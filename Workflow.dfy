/** `FeedbackWorkflow.run` (src/workflow.ts): a durable workflow of four named
    steps (retrieve the row, analyse its sentiment, extract its topics, save the
    results). A step that completed in an earlier attempt of the same instance is
    not run again: its recorded value is returned. A step that throws records
    nothing, and the error ends the run. */
module Workflow {
  import opened Text
  import opened Classification
  import opened Store

  // ---------------------------------------------------------------------------
  // The event and the feedback id

  /** A parameter object; only its `feedbackId` is read. */
  datatype Params = Params(feedbackId: Option<int>)

  /** The three places the id may come from: `event.payload`, `event.params` and
      `event.input.params`; `None` is an absent (`undefined`/`null`) object. */
  datatype Event = Event(payload: Option<Params>, params: Option<Params>, inputParams: Option<Params>)

  /** `p?.feedbackId` when it is truthy: a missing id and the id 0 are falsy. */
  function TruthyId(p: Option<Params>): (r: Option<int>)
    ensures r.Some? <==> p.Some? && p.value.feedbackId.Some? && p.value.feedbackId.value != 0
    ensures r.Some? ==> r.value != 0 && p.value.feedbackId == r
  {
    if p.Some? && p.value.feedbackId.Some? && p.value.feedbackId.value != 0 then p.value.feedbackId
    else None
  }

  /** `a || b` on ids. */
  function OrId(a: Option<int>, b: Option<int>): Option<int> {
    if a.Some? then a else b
  }

  /** `payload || params || input?.params || {}`: the first parameter object
      that is present. */
  function ChosenParams(e: Event): Option<Params> {
    if e.payload.Some? then e.payload
    else if e.params.Some? then e.params
    else if e.inputParams.Some? then e.inputParams
    else Some(Params(None))
  }

  /** The id chain of src/workflow.ts: the chosen object's id, then the payload's,
      the params' and the input's, the first truthy one. */
  function ExtractFeedbackId(e: Event): (r: Option<int>)
    ensures r.Some? ==> r.value != 0
  {
    OrId(TruthyId(ChosenParams(e)), OrId(TruthyId(e.payload), OrId(TruthyId(e.params), TruthyId(e.inputParams))))
  }

  /** The chosen object adds nothing: the id is the first truthy id among the
      payload, the params and the input, in that order, and there is none
      exactly when all three are missing or zero. */
  lemma ExtractFeedbackIdFirstTruthy(e: Event)
    ensures ExtractFeedbackId(e) == OrId(TruthyId(e.payload), OrId(TruthyId(e.params), TruthyId(e.inputParams)))
    ensures ExtractFeedbackId(e).None? <==>
      TruthyId(e.payload).None? && TruthyId(e.params).None? && TruthyId(e.inputParams).None?
  {
  }

  // ---------------------------------------------------------------------------
  // Environment, failures and step values

  /** Whether the `DB`, `AI` and `FEEDBACK_WORKFLOW` bindings are present in
      the environment; the workflow itself reads only the first two. */
  datatype Bindings = Bindings(hasDb: bool, hasAi: bool, hasWorkflow: bool)

  /** Whether the database throws on the point read and on the UPDATE. */
  datatype StoreFaults = StoreFaults(readFails: bool, writeFails: bool)

  /** The errors the run throws. */
  datatype Failure =
    | MissingFeedbackId
    | DatabaseUnavailable
    | DatabaseError
    | FeedbackNotFound(id: int)
    | AiUnavailable

  datatype Outcome<+T> = Ok(value: T) | Thrown(failure: Failure)

  /** What `run` returns: the early "already processed" answer, or the values it
      saved. */
  datatype RunResult =
    | AlreadyProcessed(feedbackId: int)
    | Completed(feedbackId: int, sentiment: Sentiment, topics: string)

  /** The value of the `retrieve-feedback` step. */
  datatype Fetched = Fetched(skip: bool, row: Feedback)

  /** The values recorded for the four named steps of one workflow instance. */
  datatype Journal = Journal(
    fetched: Option<Fetched>,
    analyzed: Option<Sentiment>,
    extracted: Option<string>,
    saved: bool)

  const Fresh: Journal := Journal(None, None, None, false)

  /** Recorded classifications are what the steps produce: a non-empty label
      and non-empty topics. */
  predicate JournalValid(j: Journal) {
    && (j.analyzed.Some? ==> j.analyzed.value.name != "")
    && (j.extracted.Some? ==> j.extracted.value != "")
  }

  /** The state a run leaves behind. */
  datatype Execution = Execution(outcome: Outcome<RunResult>, rows: map<int, Feedback>, journal: Journal)

  // ---------------------------------------------------------------------------
  // The step bodies

  /** `retrieve-feedback`: the row and whether it is already processed. */
  function Retrieve(env: Bindings, faults: StoreFaults, rows: map<int, Feedback>, id: int): (r: Outcome<Fetched>)
    ensures r.Ok? <==> env.hasDb && !faults.readFails && id in rows
    ensures r.Ok? ==> r.value == Fetched(rows[id].processed, rows[id])
    ensures env.hasDb && !faults.readFails && id !in rows ==> r == Thrown(FeedbackNotFound(id))
  {
    if !env.hasDb then Thrown(DatabaseUnavailable)
    else if faults.readFails then Thrown(DatabaseError)
    else if id !in rows then Thrown(FeedbackNotFound(id))
    else Ok(Fetched(rows[id].processed, rows[id]))
  }

  /** `analyze-sentiment`: throws without the AI binding; otherwise the chat
      model's answer, or the keyword rules when the call throws. */
  function Analyze(env: Bindings, content: string, reply: Call<ChatReply>): (r: Outcome<Sentiment>)
    ensures r.Ok? <==> env.hasAi
    ensures r.Ok? ==> r.value.name != "" && r.value == ChatSentiment(content, reply)
  {
    if !env.hasAi then Thrown(AiUnavailable) else Ok(ChatSentiment(content, reply))
  }

  /** `extract-topics`: throws without the AI binding; otherwise the chat
      model's answer, or the vocabulary scan when the call throws. */
  function Extract(env: Bindings, content: string, reply: Call<ChatReply>): (r: Outcome<string>)
    ensures r.Ok? <==> env.hasAi
    ensures r.Ok? ==> r.value != "" && r.value == Topics(content, reply)
  {
    if !env.hasAi then Thrown(AiUnavailable) else Ok(Topics(content, reply))
  }

  /** `save-results`: whether the UPDATE goes through. */
  function SaveFailure(env: Bindings, faults: StoreFaults): (r: Option<Failure>)
    ensures r.None? <==> env.hasDb && !faults.writeFails
  {
    if !env.hasDb then Some(DatabaseUnavailable)
    else if faults.writeFails then Some(DatabaseError)
    else None
  }

  // ---------------------------------------------------------------------------
  // The run

  /** One execution of `run` for an event, against the table `rows`, with the
      journal `j` of the steps earlier attempts of this instance completed. The
      two AI answers stand for what `env.AI.run` does in this attempt. */
  function RunSpec(e: Event, env: Bindings, faults: StoreFaults,
                   sentimentReply: Call<ChatReply>, topicReply: Call<ChatReply>,
                   rows: map<int, Feedback>, j: Journal): Execution
  {
    var id := ExtractFeedbackId(e);
    if id.None? then Execution(Thrown(MissingFeedbackId), rows, j)
    else
      var fid := id.value;
      var fetched := FetchStep(env, faults, rows, j, fid);
      if fetched.Thrown? then Execution(Thrown(fetched.failure), rows, j)
      else
        var j1 := j.(fetched := Some(fetched.value));
        if fetched.value.skip then Execution(Ok(AlreadyProcessed(fid)), rows, j1)
        else ProcessSpec(env, faults, sentimentReply, topicReply, rows, j1, fid, fetched.value.row.content)
  }

  /** `retrieve-feedback` as the run sees it: the recorded value when an
      earlier attempt completed the step, the read otherwise. */
  function FetchStep(env: Bindings, faults: StoreFaults, rows: map<int, Feedback>, j: Journal, fid: int): Outcome<Fetched> {
    if j.fetched.Some? then Ok(j.fetched.value) else Retrieve(env, faults, rows, fid)
  }

  /** The three steps after `retrieve-feedback` for an unprocessed row `fid`
      holding `content`. */
  function ProcessSpec(env: Bindings, faults: StoreFaults,
                       sentimentReply: Call<ChatReply>, topicReply: Call<ChatReply>,
                       rows: map<int, Feedback>, j1: Journal, fid: int, content: string): Execution
  {
    var analyzed := if j1.analyzed.Some? then Ok(j1.analyzed.value) else Analyze(env, content, sentimentReply);
    if analyzed.Thrown? then Execution(Thrown(analyzed.failure), rows, j1)
    else
      var j2 := j1.(analyzed := Some(analyzed.value));
      var extracted := if j2.extracted.Some? then Ok(j2.extracted.value) else Extract(env, content, topicReply);
      if extracted.Thrown? then Execution(Thrown(extracted.failure), rows, j2)
      else
        var j3 := j2.(extracted := Some(extracted.value));
        var done := Ok(Completed(fid, analyzed.value, extracted.value));
        if j3.saved then Execution(done, rows, j3)
        else
          var failure := SaveFailure(env, faults);
          if failure.Some? then Execution(Thrown(failure.value), rows, j3)
          else Execution(done, UpdateRow(rows, fid, analyzed.value, extracted.value), j3.(saved := true))
  }

  /** The step state of one workflow instance, kept across attempts. */
  class WorkflowStep {
    var fetched: Option<Fetched>
    var analyzed: Option<Sentiment>
    var extracted: Option<string>
    var saved: bool

    constructor ()
      ensures Snapshot() == Fresh
    {
      fetched := None;
      analyzed := None;
      extracted := None;
      saved := false;
    }

    function Snapshot(): Journal
      reads this
    {
      Journal(fetched, analyzed, extracted, saved)
    }
  }

  class FeedbackWorkflow {
    const env: Bindings

    constructor (env: Bindings)
      ensures this.env == env
    {
      this.env := env;
    }

    /** `run`: each step consults the journal first, and records its value when
        it completes. */
    method Run(event: Event, step: WorkflowStep, db: FeedbackTable, faults: StoreFaults,
               sentimentReply: Call<ChatReply>, topicReply: Call<ChatReply>)
      returns (outcome: Outcome<RunResult>)
      modifies step, db
      ensures var x := RunSpec(event, env, faults, sentimentReply, topicReply, old(db.rows), old(step.Snapshot()));
        outcome == x.outcome && db.rows == x.rows && step.Snapshot() == x.journal
      ensures db.lastRowId == old(db.lastRowId)
    {
      var feedbackId := ExtractFeedbackId(event);
      if feedbackId.None? {
        return Thrown(MissingFeedbackId);
      }
      var id := feedbackId.value;
      var feedback := RetrieveFeedback(step, db, faults, id);
      if feedback.Thrown? {
        return Thrown(feedback.failure);
      }
      if feedback.value.skip {
        return Ok(AlreadyProcessed(id));
      }
      outcome := Process(step, db, faults, id, feedback.value.row.content, sentimentReply, topicReply);
    }

    /** The `analyze-sentiment`, `extract-topics` and `save-results` steps, in
        that order, each ending the run when it throws. */
    method Process(step: WorkflowStep, db: FeedbackTable, faults: StoreFaults, id: int, content: string,
                   sentimentReply: Call<ChatReply>, topicReply: Call<ChatReply>)
      returns (outcome: Outcome<RunResult>)
      modifies step, db
      ensures var x := ProcessSpec(env, faults, sentimentReply, topicReply, old(db.rows), old(step.Snapshot()), id, content);
        outcome == x.outcome && db.rows == x.rows && step.Snapshot() == x.journal
      ensures db.lastRowId == old(db.lastRowId)
    {
      var sentiment := AnalyzeSentiment(step, content, sentimentReply);
      if sentiment.Thrown? {
        return Thrown(sentiment.failure);
      }
      var topics := ExtractTopics(step, content, topicReply);
      if topics.Thrown? {
        return Thrown(topics.failure);
      }
      var failure := SaveResults(step, db, faults, id, sentiment.value, topics.value);
      if failure.Some? {
        return Thrown(failure.value);
      }
      return Ok(Completed(id, sentiment.value, topics.value));
    }

    /** The `retrieve-feedback` step. */
    method RetrieveFeedback(step: WorkflowStep, db: FeedbackTable, faults: StoreFaults, id: int)
      returns (r: Outcome<Fetched>)
      modifies step
      ensures r == FetchStep(env, faults, db.rows, old(step.Snapshot()), id)
      ensures step.Snapshot() == if r.Ok? then old(step.Snapshot()).(fetched := Some(r.value)) else old(step.Snapshot())
    {
      if step.fetched.Some? {
        return Ok(step.fetched.value);
      }
      if !env.hasDb {
        return Thrown(DatabaseUnavailable);
      }
      if faults.readFails {
        return Thrown(DatabaseError);
      }
      var row := db.Find(id);
      if row.None? {
        return Thrown(FeedbackNotFound(id));
      }
      var fetched := Fetched(row.value.processed, row.value);
      step.fetched := Some(fetched);
      return Ok(fetched);
    }

    /** The `analyze-sentiment` step: the label starts as `neutral`/0.5 and is
        replaced by the model's reading or, when the call throws, the keyword
        rules. */
    method AnalyzeSentiment(step: WorkflowStep, content: string, reply: Call<ChatReply>)
      returns (r: Outcome<Sentiment>)
      modifies step
      ensures r == (if old(step.analyzed).Some? then Ok(old(step.analyzed).value) else Analyze(env, content, reply))
      ensures step.Snapshot() == if r.Ok? then old(step.Snapshot()).(analyzed := Some(r.value)) else old(step.Snapshot())
    {
      if step.analyzed.Some? {
        return Ok(step.analyzed.value);
      }
      if !env.hasAi {
        return Thrown(AiUnavailable);
      }
      var sentiment := Sentiment("neutral", 0.5);
      match reply {
        case Returned(answer) =>
          sentiment := ResponseSentiment(answer);
        case Threw =>
          sentiment := KeywordSentiment(content);
      }
      step.analyzed := Some(sentiment);
      return Ok(sentiment);
    }

    /** The `extract-topics` step: the topics start as `general` and are replaced
        by the model's answer or, when the call throws, the vocabulary scan. */
    method ExtractTopics(step: WorkflowStep, content: string, reply: Call<ChatReply>)
      returns (r: Outcome<string>)
      modifies step
      ensures r == (if old(step.extracted).Some? then Ok(old(step.extracted).value) else Extract(env, content, reply))
      ensures step.Snapshot() == if r.Ok? then old(step.Snapshot()).(extracted := Some(r.value)) else old(step.Snapshot())
    {
      if step.extracted.Some? {
        return Ok(step.extracted.value);
      }
      if !env.hasAi {
        return Thrown(AiUnavailable);
      }
      var topics := "general";
      match reply {
        case Returned(answer) =>
          topics := ResponseTopics(answer);
        case Threw =>
          topics := KeywordTopics(content);
      }
      step.extracted := Some(topics);
      return Ok(topics);
    }

    /** The `save-results` step: the UPDATE of row `id`, unless an earlier
        attempt already saved. */
    method SaveResults(step: WorkflowStep, db: FeedbackTable, faults: StoreFaults,
                       id: int, sentiment: Sentiment, topics: string)
      returns (failure: Option<Failure>)
      modifies step, db
      ensures failure == (if old(step.saved) then None else SaveFailure(env, faults))
      ensures db.rows == if old(step.saved) || failure.Some? then old(db.rows) else UpdateRow(old(db.rows), id, sentiment, topics)
      ensures step.Snapshot() == old(step.Snapshot()).(saved := old(step.saved) || failure.None?)
      ensures db.lastRowId == old(db.lastRowId)
    {
      if step.saved {
        return None;
      }
      if !env.hasDb {
        return Some(DatabaseUnavailable);
      }
      if faults.writeFails {
        return Some(DatabaseError);
      }
      db.Update(id, sentiment, topics);
      step.saved := true;
      return None;
    }
  }

  // ---------------------------------------------------------------------------
  // Properties of a run

  /** Without a truthy feedback id the run throws before any step, and nothing
      changes. */
  lemma RunWithoutId(e: Event, env: Bindings, faults: StoreFaults,
                     sr: Call<ChatReply>, tr: Call<ChatReply>, rows: map<int, Feedback>, j: Journal)
    requires ExtractFeedbackId(e).None?
    ensures RunSpec(e, env, faults, sr, tr, rows, j) == Execution(Thrown(MissingFeedbackId), rows, j)
  {
  }

  /** A first attempt for an id with no row throws "not found" and changes no
      row. */
  lemma RunNotFound(e: Event, env: Bindings, faults: StoreFaults,
                    sr: Call<ChatReply>, tr: Call<ChatReply>, rows: map<int, Feedback>)
    requires ExtractFeedbackId(e).Some? && ExtractFeedbackId(e).value !in rows
    requires env.hasDb && !faults.readFails
    ensures var x := RunSpec(e, env, faults, sr, tr, rows, Fresh);
      x.outcome == Thrown(FeedbackNotFound(ExtractFeedbackId(e).value)) && x.rows == rows
  {
  }

  /** A first attempt for a processed row returns early without classifying, and
      running the instance again gives the same answer and still changes
      nothing, whatever the bindings and the AI do then. */
  lemma RunAlreadyProcessed(e: Event, env: Bindings, faults: StoreFaults,
                            sr: Call<ChatReply>, tr: Call<ChatReply>, rows: map<int, Feedback>,
                            env2: Bindings, faults2: StoreFaults, sr2: Call<ChatReply>, tr2: Call<ChatReply>)
    requires ExtractFeedbackId(e).Some?
    requires var id := ExtractFeedbackId(e).value; id in rows && rows[id].processed
    requires env.hasDb && !faults.readFails
    ensures var x := RunSpec(e, env, faults, sr, tr, rows, Fresh);
      && x.outcome == Ok(AlreadyProcessed(ExtractFeedbackId(e).value))
      && x.rows == rows
      && RunSpec(e, env2, faults2, sr2, tr2, x.rows, x.journal) == x
  {
  }

  /** Without the AI binding a first attempt on an unprocessed row throws from
      the sentiment step instead of falling back, and changes no row. */
  lemma RunWithoutAi(e: Event, env: Bindings, faults: StoreFaults,
                     sr: Call<ChatReply>, tr: Call<ChatReply>, rows: map<int, Feedback>)
    requires ExtractFeedbackId(e).Some?
    requires var id := ExtractFeedbackId(e).value; id in rows && !rows[id].processed
    requires env.hasDb && !env.hasAi && !faults.readFails
    ensures var x := RunSpec(e, env, faults, sr, tr, rows, Fresh);
      x.outcome == Thrown(AiUnavailable) && x.rows == rows && x.journal.analyzed.None?
  {
  }

  /** A first attempt on an unprocessed row with both bindings and a working
      database classifies that row and no other, and returns exactly the values
      it saved. */
  lemma RunCompletes(e: Event, env: Bindings, faults: StoreFaults,
                     sr: Call<ChatReply>, tr: Call<ChatReply>, rows: map<int, Feedback>)
    requires ExtractFeedbackId(e).Some?
    requires var id := ExtractFeedbackId(e).value; id in rows && !rows[id].processed
    requires env.hasDb && env.hasAi && !faults.readFails && !faults.writeFails
    ensures var id := ExtractFeedbackId(e).value;
      var content := rows[id].content;
      var s := ChatSentiment(content, sr);
      var t := Topics(content, tr);
      var x := RunSpec(e, env, faults, sr, tr, rows, Fresh);
      && x.outcome == Ok(Completed(id, s, t))
      && x.rows.Keys == rows.Keys
      && (forall k :: k in rows && k != id ==> x.rows[k] == rows[k])
      && x.rows[id].processed && x.rows[id].status == "processed"
      && x.rows[id].sentiment == Some(s.name) && x.rows[id].sentimentScore == Some(s.score)
      && x.rows[id].topics == Some(t)
      && x.rows[id].content == content
  {
  }

  /** The steps after retrieval keep the recorded retrieval, and record only
      what the steps produce. */
  lemma ProcessJournal(env: Bindings, faults: StoreFaults, sr: Call<ChatReply>, tr: Call<ChatReply>,
                       rows: map<int, Feedback>, j1: Journal, fid: int, content: string)
    ensures var x := ProcessSpec(env, faults, sr, tr, rows, j1, fid, content);
      && x.journal.fetched == j1.fetched
      && (JournalValid(j1) ==> JournalValid(x.journal))
  {
  }

  /** Steps after retrieval that return have recorded every step, and return
      the values they recorded. */
  lemma ProcessReturns(env: Bindings, faults: StoreFaults, sr: Call<ChatReply>, tr: Call<ChatReply>,
                       rows: map<int, Feedback>, j1: Journal, fid: int, content: string)
    ensures var x := ProcessSpec(env, faults, sr, tr, rows, j1, fid, content);
      x.outcome.Ok? ==>
        && x.journal.analyzed.Some? && x.journal.extracted.Some? && x.journal.saved
        && x.outcome.value == Completed(fid, x.journal.analyzed.value, x.journal.extracted.value)
  {
  }

  /** Only steps after retrieval that return change the table, and then only by
      classifying their own row with the recorded values. */
  lemma ProcessRows(env: Bindings, faults: StoreFaults, sr: Call<ChatReply>, tr: Call<ChatReply>,
                    rows: map<int, Feedback>, j1: Journal, fid: int, content: string)
    ensures var x := ProcessSpec(env, faults, sr, tr, rows, j1, fid, content);
      || x.rows == rows
      || (x.outcome.Ok? && x.rows == UpdateRow(rows, fid, x.journal.analyzed.value, x.journal.extracted.value))
  {
  }

  /** The steps after retrieval keep the table consistent. */
  lemma ProcessConsistent(env: Bindings, faults: StoreFaults, sr: Call<ChatReply>, tr: Call<ChatReply>,
                          rows: map<int, Feedback>, j1: Journal, fid: int, content: string)
    requires Consistent(rows) && JournalValid(j1)
    ensures var x := ProcessSpec(env, faults, sr, tr, rows, j1, fid, content);
      Consistent(x.rows) && JournalValid(x.journal)
  {
    var x := ProcessSpec(env, faults, sr, tr, rows, j1, fid, content);
    ProcessJournal(env, faults, sr, tr, rows, j1, fid, content);
    ProcessRows(env, faults, sr, tr, rows, j1, fid, content);
    if x.rows != rows {
      UpdateRowConsistent(rows, fid, x.journal.analyzed.value, x.journal.extracted.value);
    }
  }

  /** Once the steps after retrieval returned, replaying them with the journal
      they left returns the same and changes nothing. */
  lemma ProcessReplay(env: Bindings, faults: StoreFaults, sr: Call<ChatReply>, tr: Call<ChatReply>,
                      rows: map<int, Feedback>, j1: Journal, fid: int, content: string,
                      env2: Bindings, faults2: StoreFaults, sr2: Call<ChatReply>, tr2: Call<ChatReply>)
    requires ProcessSpec(env, faults, sr, tr, rows, j1, fid, content).outcome.Ok?
    ensures var x := ProcessSpec(env, faults, sr, tr, rows, j1, fid, content);
      ProcessSpec(env2, faults2, sr2, tr2, x.rows, x.journal, fid, content) == x
  {
    ProcessJournal(env, faults, sr, tr, rows, j1, fid, content);
    ProcessReturns(env, faults, sr, tr, rows, j1, fid, content);
  }

  /** A run changes the table only by classifying its own row, with the values
      it returns; every failed run leaves the table as it was. */
  lemma RunChangesOnlyItsRow(e: Event, env: Bindings, faults: StoreFaults,
                             sr: Call<ChatReply>, tr: Call<ChatReply>, rows: map<int, Feedback>, j: Journal)
    ensures var x := RunSpec(e, env, faults, sr, tr, rows, j);
      || x.rows == rows
      || (x.outcome.Ok? && x.outcome.value.Completed? &&
          x.rows == UpdateRow(rows, x.outcome.value.feedbackId, x.outcome.value.sentiment, x.outcome.value.topics))
    ensures var x := RunSpec(e, env, faults, sr, tr, rows, j);
      x.outcome.Thrown? ==> x.rows == rows
  {
    var id := ExtractFeedbackId(e);
    if id.Some? {
      var fetched := FetchStep(env, faults, rows, j, id.value);
      if fetched.Ok? && !fetched.value.skip {
        var j1 := j.(fetched := Some(fetched.value));
        ProcessReturns(env, faults, sr, tr, rows, j1, id.value, fetched.value.row.content);
        ProcessRows(env, faults, sr, tr, rows, j1, id.value, fetched.value.row.content);
      }
    }
  }

  /** Runs keep the table consistent: a processed row always carries a label, a
      score and topics. */
  lemma RunConsistent(e: Event, env: Bindings, faults: StoreFaults,
                      sr: Call<ChatReply>, tr: Call<ChatReply>, rows: map<int, Feedback>, j: Journal)
    requires Consistent(rows) && JournalValid(j)
    ensures var x := RunSpec(e, env, faults, sr, tr, rows, j);
      Consistent(x.rows) && JournalValid(x.journal)
  {
    var id := ExtractFeedbackId(e);
    if id.Some? {
      var fetched := FetchStep(env, faults, rows, j, id.value);
      if fetched.Ok? && !fetched.value.skip {
        ProcessConsistent(env, faults, sr, tr, rows, j.(fetched := Some(fetched.value)), id.value, fetched.value.row.content);
      }
    }
  }

  /** After an attempt that classified the row but failed to save, the next
      attempt saves the recorded classification, whatever the AI answers this
      time. */
  lemma RunReplayAfterSaveFailure(e: Event, env: Bindings, faults: StoreFaults,
                                  sr: Call<ChatReply>, tr: Call<ChatReply>, rows: map<int, Feedback>,
                                  faults2: StoreFaults, sr2: Call<ChatReply>, tr2: Call<ChatReply>)
    requires ExtractFeedbackId(e).Some?
    requires var id := ExtractFeedbackId(e).value; id in rows && !rows[id].processed
    requires env.hasDb && env.hasAi && !faults.readFails && faults.writeFails && !faults2.writeFails
    ensures var id := ExtractFeedbackId(e).value;
      var content := rows[id].content;
      var x := RunSpec(e, env, faults, sr, tr, rows, Fresh);
      var y := RunSpec(e, env, faults2, sr2, tr2, x.rows, x.journal);
      && x.outcome == Thrown(DatabaseError) && x.rows == rows
      && y.outcome == Ok(Completed(id, ChatSentiment(content, sr), Topics(content, tr)))
      && y.rows == UpdateRow(rows, id, ChatSentiment(content, sr), Topics(content, tr))
  {
  }

  /** A run that returned is final: running the instance again returns the same
      value and changes nothing, whatever the bindings, the database and the AI
      do then. */
  lemma RunReplayAfterSuccess(e: Event, env: Bindings, faults: StoreFaults,
                              sr: Call<ChatReply>, tr: Call<ChatReply>, rows: map<int, Feedback>, j: Journal,
                              env2: Bindings, faults2: StoreFaults, sr2: Call<ChatReply>, tr2: Call<ChatReply>)
    requires RunSpec(e, env, faults, sr, tr, rows, j).outcome.Ok?
    ensures var x := RunSpec(e, env, faults, sr, tr, rows, j);
      RunSpec(e, env2, faults2, sr2, tr2, x.rows, x.journal) == x
  {
    var id := ExtractFeedbackId(e).value;
    var fetched := FetchStep(env, faults, rows, j, id);
    if !fetched.value.skip {
      var j1 := j.(fetched := Some(fetched.value));
      var content := fetched.value.row.content;
      ProcessJournal(env, faults, sr, tr, rows, j1, id, content);
      ProcessReplay(env, faults, sr, tr, rows, j1, id, content, env2, faults2, sr2, tr2);
    }
  }
}
