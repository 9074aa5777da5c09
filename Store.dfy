/** The `feedback` table of the D1 database, as far as the classification core
    uses it: a point read by id, the classification UPDATE, the INSERT of a new
    row and the `processed = 0` filter. */
module Store {
  import opened Text
  import opened Classification

  /** One row of the `feedback` table; the key is the row id. */
  datatype Feedback = Feedback(
    source: string,
    content: string,
    author: Option<string>,
    timestamp: string,
    sentiment: Option<string>,
    sentimentScore: Option<real>,
    topics: Option<string>,
    category: Option<string>,
    urgency: Option<string>,
    summary: Option<string>,
    status: string,
    processed: bool)

  /** The row after `UPDATE feedback SET sentiment = ?, sentiment_score = ?,
      topics = ?, status = 'processed', processed = 1`. */
  function Classified(f: Feedback, s: Sentiment, topics: string): (g: Feedback)
    ensures g.processed && g.status == "processed"
    ensures g.sentiment == Some(s.name) && g.sentimentScore == Some(s.score) && g.topics == Some(topics)
    ensures g.(sentiment := f.sentiment, sentimentScore := f.sentimentScore, topics := f.topics,
               status := f.status, processed := f.processed) == f
  {
    f.(sentiment := Some(s.name), sentimentScore := Some(s.score), topics := Some(topics),
       status := "processed", processed := true)
  }

  /** The UPDATE with `WHERE id = ?`: the row with that id, if there is one, is
      classified; every other row is left as it was. */
  function UpdateRow(rows: map<int, Feedback>, id: int, s: Sentiment, topics: string): (r: map<int, Feedback>)
    ensures r.Keys == rows.Keys
    ensures forall k :: k in rows && k != id ==> r[k] == rows[k]
    ensures id in rows ==> r[id] == Classified(rows[id], s, topics)
    ensures id !in rows ==> r == rows
  {
    if id in rows then rows[id := Classified(rows[id], s, topics)] else rows
  }

  /** A processed row carries a non-empty label, a score and non-empty topics,
      and its status says so: what both classification paths write. */
  predicate WellClassified(f: Feedback) {
    f.processed ==>
      && f.status == "processed"
      && f.sentiment.Some? && f.sentiment.value != ""
      && f.sentimentScore.Some?
      && f.topics.Some? && f.topics.value != ""
  }

  predicate Consistent(rows: map<int, Feedback>) {
    forall k :: k in rows ==> WellClassified(rows[k])
  }

  /** Classifying a row with a non-empty label and non-empty topics keeps the
      table consistent. */
  lemma UpdateRowConsistent(rows: map<int, Feedback>, id: int, s: Sentiment, topics: string)
    requires Consistent(rows) && s.name != "" && topics != ""
    ensures Consistent(UpdateRow(rows, id, s, topics))
  {
    var r := UpdateRow(rows, id, s, topics);
    forall k | k in r ensures WellClassified(r[k]) {
      if k != id {
        assert r[k] == rows[k];
      }
    }
  }

  /** The ids of the rows with `processed = 0`. */
  function PendingSet(rows: map<int, Feedback>): set<int> {
    set k | k in rows && !rows[k].processed
  }

  /** A sequence without repetitions has as many elements as the set of its
      elements. */
  lemma {:induction false} DistinctCard(ids: seq<int>)
    requires Distinct(ids)
    ensures |set k | k in ids| == |ids|
  {
    if ids != [] {
      var last := ids[|ids| - 1];
      var front := ids[..|ids| - 1];
      assert Distinct(front);
      DistinctCard(front);
      assert (set k | k in ids) == (set k | k in front) + {last};
      assert last !in front;
    }
  }

  /** The `feedback` table, updated in place. `lastRowId` is the id SQLite gave
      the most recent INSERT; every row id is positive and at most that. */
  class FeedbackTable {
    var rows: map<int, Feedback>
    var lastRowId: int

    ghost predicate Valid()
      reads this
    {
      lastRowId >= 0 && forall k :: k in rows ==> 0 < k <= lastRowId
    }

    constructor ()
      ensures Valid() && rows == map[] && lastRowId == 0
    {
      rows := map[];
      lastRowId := 0;
    }

    /** `SELECT * FROM feedback WHERE id = ?` with `.first()`: the row or nothing. */
    method Find(id: int) returns (r: Option<Feedback>)
      ensures r.Some? <==> id in rows
      ensures r.Some? ==> r.value == rows[id]
    {
      if id in rows {
        r := Some(rows[id]);
      } else {
        r := None;
      }
    }

    /** The classification UPDATE of one row. */
    method Update(id: int, s: Sentiment, topics: string)
      modifies this
      ensures rows == UpdateRow(old(rows), id, s, topics)
      ensures lastRowId == old(lastRowId)
      ensures old(Valid()) ==> Valid()
    {
      if id in rows {
        rows := rows[id := Classified(rows[id], s, topics)];
      }
    }

    /** The INSERT: the new row gets the next row id, which no row had before. */
    method Insert(f: Feedback) returns (id: int)
      requires Valid()
      modifies this
      ensures Valid()
      ensures id == old(lastRowId) + 1 == lastRowId
      ensures id !in old(rows) && rows == old(rows)[id := f]
    {
      lastRowId := lastRowId + 1;
      id := lastRowId;
      rows := rows[id := f];
    }

    /** `SELECT id FROM feedback WHERE processed = 0`, in no particular order:
        every pending id exactly once. */
    method PendingIds() returns (ids: seq<int>)
      ensures Distinct(ids)
      ensures forall k :: k in ids <==> k in PendingSet(rows)
      ensures |ids| == |PendingSet(rows)|
    {
      ids := [];
      var left := PendingSet(rows);
      while left != {}
        invariant Distinct(ids)
        invariant forall k :: k in ids ==> k in PendingSet(rows) && k !in left
        invariant forall k :: k in PendingSet(rows) ==> k in ids || k in left
        invariant left <= PendingSet(rows)
        decreases |left|
      {
        assert (forall k :: k !in left) ==> left == {};
        var k :| k in left;
        ids := ids + [k];
        left := left - {k};
      }
      DistinctCard(ids);
      assert (set k | k in ids) == PendingSet(rows);
    }
  }
}
