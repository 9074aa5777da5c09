/** The classification rules shared by the durable workflow (src/workflow.ts)
    and the synchronous fallback (src/index.ts): how an AI reply becomes a
    sentiment label and score, the keyword-based sentiment fallback, and the
    whole-word topic extraction with its de-duplication, cap of three and join. */
module Classification {
  import opened Text

  /** One call to the AI binding (`env.AI.run`): it threw, or it returned a value. */
  datatype Call<+T> = Threw | Returned(value: T)

  /** The two fields of a chat-model reply that the code reads, `response` and
      `text`; a reply that is `null`/`undefined` has neither. */
  datatype ChatReply = ChatReply(response: Option<string>, text: Option<string>)

  /** The fields of a text-classifier reply that src/index.ts reads. */
  datatype LabelReply = LabelReply(
    labelText: Option<string>,
    sentiment: Option<string>,
    score: Option<real>,
    confidence: Option<real>)

  /** A sentiment label with its score. */
  datatype Sentiment = Sentiment(name: string, score: real)

  // ---------------------------------------------------------------------------
  // Sentiment

  /** The keyword fallback: substring checks on the lower-cased content, positive
      words first. When nothing matches, the label keeps its initial lower-case
      value `'neutral'`. */
  function KeywordSentiment(content: string): (r: Sentiment)
    ensures r == Sentiment("POSITIVE", 0.8) || r == Sentiment("NEGATIVE", 0.3) || r == Sentiment("neutral", 0.5)
  {
    var lower := ToLower(content);
    if Contains(lower, "great") || Contains(lower, "love") || Contains(lower, "excellent") then
      Sentiment("POSITIVE", 0.8)
    else if Contains(lower, "bug") || Contains(lower, "crash") || Contains(lower, "fix") then
      Sentiment("NEGATIVE", 0.3)
    else
      Sentiment("neutral", 0.5)
  }

  /** Content holding a positive word in any letter case is classified
      POSITIVE, whatever negative words it also holds. */
  lemma KeywordSentimentPositive(content: string)
    requires var lower := ToLower(content);
      Contains(lower, "great") || Contains(lower, "love") || Contains(lower, "excellent")
    ensures KeywordSentiment(content) == Sentiment("POSITIVE", 0.8)
  {
  }

  /** In particular a positive word written in lower case in the content. */
  lemma KeywordSentimentPositiveAsWritten(content: string)
    requires Contains(content, "great") || Contains(content, "love") || Contains(content, "excellent")
    ensures KeywordSentiment(content) == Sentiment("POSITIVE", 0.8)
  {
    if Contains(content, "great") {
      ContainsSurvivesLower(content, "great");
    } else if Contains(content, "love") {
      ContainsSurvivesLower(content, "love");
    } else {
      ContainsSurvivesLower(content, "excellent");
    }
    KeywordSentimentPositive(content);
  }

  /** Content holding a negative word and no positive word, both in any letter
      case, is classified NEGATIVE with score 0.3. */
  lemma KeywordSentimentNegative(content: string)
    requires var lower := ToLower(content);
      Contains(lower, "bug") || Contains(lower, "crash") || Contains(lower, "fix")
    requires var lower := ToLower(content);
      !Contains(lower, "great") && !Contains(lower, "love") && !Contains(lower, "excellent")
    ensures KeywordSentiment(content) == Sentiment("NEGATIVE", 0.3)
  {
  }

  /** In particular a negative word written in lower case in the content. */
  lemma KeywordSentimentNegativeAsWritten(content: string)
    requires Contains(content, "bug") || Contains(content, "crash") || Contains(content, "fix")
    requires var lower := ToLower(content);
      !Contains(lower, "great") && !Contains(lower, "love") && !Contains(lower, "excellent")
    ensures KeywordSentiment(content) == Sentiment("NEGATIVE", 0.3)
  {
    if Contains(content, "bug") {
      ContainsSurvivesLower(content, "bug");
    } else if Contains(content, "crash") {
      ContainsSurvivesLower(content, "crash");
    } else {
      ContainsSurvivesLower(content, "fix");
    }
    KeywordSentimentNegative(content);
  }

  /** Content with none of the six keywords in any letter case keeps the
      initial lower-case label: `'neutral'` with 0.5, which no reading of a chat
      reply gives. */
  lemma KeywordSentimentNeutral(content: string)
    requires var lower := ToLower(content);
      && !Contains(lower, "great") && !Contains(lower, "love") && !Contains(lower, "excellent")
      && !Contains(lower, "bug") && !Contains(lower, "crash") && !Contains(lower, "fix")
    ensures KeywordSentiment(content) == Sentiment("neutral", 0.5)
    ensures forall reply :: KeywordSentiment(content).name != ResponseSentiment(reply).name
  {
    forall reply ensures KeywordSentiment(content).name != ResponseSentiment(reply).name {
      assert ResponseSentiment(reply).name in {"POSITIVE", "NEGATIVE", "NEUTRAL"};
    }
  }

  /** The upper-cased, trimmed reply text the workflow inspects; a missing reply
      counts as the empty string. */
  function ResponseText(reply: ChatReply): string {
    Trim(ToUpper(FirstTruthy(reply.response, reply.text, "")))
  }

  /** The workflow's reading of the chat model's sentiment answer. Unlike the
      keyword fallback, its neutral label is upper-case. */
  function ResponseSentiment(reply: ChatReply): (r: Sentiment)
    ensures r == Sentiment("POSITIVE", 0.8) || r == Sentiment("NEGATIVE", 0.2) || r == Sentiment("NEUTRAL", 0.5)
  {
    var text := ResponseText(reply);
    if Contains(text, "POSITIVE") then Sentiment("POSITIVE", 0.8)
    else if Contains(text, "NEGATIVE") then Sentiment("NEGATIVE", 0.2)
    else Sentiment("NEUTRAL", 0.5)
  }

  /** Trimming plays no part: the label depends only on which of the two words
      the upper-cased raw reply contains, POSITIVE winning over NEGATIVE. */
  lemma ResponseSentimentCaseInsensitive(reply: ChatReply)
    ensures var raw := ToUpper(FirstTruthy(reply.response, reply.text, ""));
      && (ResponseSentiment(reply).name == "POSITIVE" <==> Contains(raw, "POSITIVE"))
      && (ResponseSentiment(reply).name == "NEGATIVE" <==>
            !Contains(raw, "POSITIVE") && Contains(raw, "NEGATIVE"))
      && (ResponseSentiment(reply).name == "NEUTRAL" <==>
            !Contains(raw, "POSITIVE") && !Contains(raw, "NEGATIVE"))
  {
    var raw := ToUpper(FirstTruthy(reply.response, reply.text, ""));
    TrimKeepsWords(raw, "POSITIVE");
    TrimKeepsWords(raw, "NEGATIVE");
  }

  /** A reply written in any letter case that mentions "positive" in lower case
      is read as POSITIVE. */
  lemma ResponseSentimentLowerCaseReply(reply: ChatReply)
    requires Contains(FirstTruthy(reply.response, reply.text, ""), "positive")
    ensures ResponseSentiment(reply) == Sentiment("POSITIVE", 0.8)
  {
    var given := FirstTruthy(reply.response, reply.text, "");
    var i :| 0 <= i <= |given| - 8 && OccursAt(given, "positive", i);
    var raw := ToUpper(given);
    forall k | 0 <= k < 8 ensures raw[i + k] == "POSITIVE"[k] {
      assert given[i + k] == given[i..i + 8][k];
    }
    assert raw[i..i + 8] == "POSITIVE";
    assert OccursAt(raw, "POSITIVE", i);
    ResponseSentimentCaseInsensitive(reply);
  }

  /** src/index.ts's reading of the classifier's answer: `label || sentiment ||
      'neutral'` and `score || confidence || 0.5`, so a score of 0 is replaced. */
  function LabelSentiment(reply: LabelReply): (r: Sentiment)
    ensures r.name != "" && r.score != 0.0
    ensures Truthy(reply.labelText) ==> r.name == reply.labelText.value
    ensures !Truthy(reply.labelText) && Truthy(reply.sentiment) ==> r.name == reply.sentiment.value
    ensures !Truthy(reply.labelText) && !Truthy(reply.sentiment) ==> r.name == "neutral"
    ensures reply.score.Some? && reply.score.value != 0.0 ==> r.score == reply.score.value
    ensures (reply.score.None? || reply.score.value == 0.0) && reply.confidence.Some? && reply.confidence.value != 0.0
      ==> r.score == reply.confidence.value
    ensures ((reply.score.None? || reply.score.value == 0.0)
        && (reply.confidence.None? || reply.confidence.value == 0.0)) ==> r.score == 0.5
  {
    Sentiment(FirstTruthy(reply.labelText, reply.sentiment, "neutral"),
              FirstNonZero(reply.score, reply.confidence, 0.5))
  }

  // ---------------------------------------------------------------------------
  // Topics from the AI reply

  /** `response || text || 'general'`: an empty or missing reply gives "general". */
  function ResponseTopics(reply: ChatReply): (r: string)
    ensures r != ""
    ensures !Truthy(reply.response) && !Truthy(reply.text) ==> r == "general"
    ensures Truthy(reply.response) ==> r == reply.response.value
    ensures !Truthy(reply.response) && Truthy(reply.text) ==> r == reply.text.value
  {
    FirstTruthy(reply.response, reply.text, "general")
  }

  // ---------------------------------------------------------------------------
  // Topic fallback: /\b(dashboard|api|mobile|pricing|feature|bug|ui|login)\b/g
  //
  // The scan is defined and proved for any list of alternatives made of
  // lower-case letters; the topic pattern is the instance `Vocabulary`.

  /** The alternatives of the topic pattern, in the order the pattern lists them. */
  const Vocabulary: seq<string> := ["dashboard", "api", "mobile", "pricing", "feature", "bug", "ui", "login"]

  /** Alternatives made of lower-case letters only, none of them empty. */
  predicate LetterWords(alts: seq<string>) {
    forall w :: w in alts ==> |w| > 0 && IsLowerWord(w)
  }

  /** Alternatives that can stand as topics in a ", "-joined list: letter words
      with no comma, none of them the default "general". */
  predicate TopicWords(alts: seq<string>) {
    LetterWords(alts) && forall w :: w in alts ==> ',' !in w && w != "general"
  }

  /** Topic words stated position by position are topic words as members. */
  lemma TopicWordsIndexed(alts: seq<string>)
    requires forall i :: 0 <= i < |alts| ==> |alts[i]| > 0 && IsLowerWord(alts[i])
    requires forall i :: 0 <= i < |alts| ==> ',' !in alts[i] && alts[i] != "general"
    ensures TopicWords(alts)
  {
    forall w | w in alts
      ensures |w| > 0 && IsLowerWord(w) && ',' !in w && w != "general"
    {
      var i :| 0 <= i < |alts| && alts[i] == w;
    }
  }

  lemma VocabularyLetters()
    ensures forall i :: 0 <= i < |Vocabulary| ==> |Vocabulary[i]| > 0 && IsLowerWord(Vocabulary[i])
  {
  }

  lemma VocabularyNotGeneral()
    ensures forall i :: 0 <= i < |Vocabulary| ==> ',' !in Vocabulary[i] && Vocabulary[i] != "general"
  {
  }

  lemma VocabularyWords()
    ensures TopicWords(Vocabulary)
  {
    VocabularyLetters();
    VocabularyNotGeneral();
    TopicWordsIndexed(Vocabulary);
  }

  /** The characters `\w` matches (the pattern has no `u` flag). */
  predicate IsWordChar(c: char) {
    'a' <= c <= 'z' || 'A' <= c <= 'Z' || '0' <= c <= '9' || c == '_'
  }

  /** `\b` at position i: exactly one of the characters around i is a word character. */
  predicate IsBoundary(s: string, i: int)
    requires 0 <= i <= |s|
  {
    (i > 0 && IsWordChar(s[i - 1])) != (i < |s| && IsWordChar(s[i]))
  }

  /** w occurs in s at position i, compared character by character. */
  predicate SpelledAt(s: string, w: string, i: int) {
    0 <= i && i + |w| <= |s| && forall k :: 0 <= k < |w| ==> s[i + k] == w[k]
  }

  /** Spelling a word out character by character is the same as finding it as
      a slice. */
  lemma SpelledAtOccurs(s: string, w: string, i: int)
    ensures SpelledAt(s, w, i) <==> OccursAt(s, w, i)
  {
    if SpelledAt(s, w, i) {
      forall k | 0 <= k < |w| ensures s[i..i + |w|][k] == w[k] {
        assert s[i..i + |w|][k] == s[i + k];
      }
      assert s[i..i + |w|] == w;
    }
    if OccursAt(s, w, i) {
      forall k | 0 <= k < |w| ensures s[i + k] == w[k] {
        assert s[i..i + |w|][k] == s[i + k];
      }
    }
  }

  /** The alternative w matches at position i with `\b` on both sides. */
  predicate WholeWordAt(s: string, i: int, w: string) {
    SpelledAt(s, w, i) && IsBoundary(s, i) && IsBoundary(s, i + |w|)
  }

  /** The pattern tried at position i: the first alternative that occurs there as
      a whole word, or none exactly when no alternative does. */
  function AlternativeAt(s: string, i: int, alts: seq<string>): (r: Option<string>)
    requires 0 <= i <= |s|
    ensures r.Some? ==> r.value in alts && WholeWordAt(s, i, r.value)
    ensures r.None? ==> forall w :: w in alts ==> !WholeWordAt(s, i, w)
  {
    if |alts| == 0 then None
    else if WholeWordAt(s, i, alts[0]) then Some(alts[0])
    else AlternativeAt(s, i, alts[1..])
  }

  /** `s.match(/\b(alt1|alt2|...)\b/g)` from position i: after a match the search
      resumes at its end (one character further on after an empty match),
      otherwise one character further on. The search stops at the end of the
      string, so an empty alternative is never tried there as JavaScript would;
      the topic pattern has none. */
  function ScanMatches(s: string, i: nat, alts: seq<string>): seq<string>
    requires i <= |s|
    decreases |s| - i
  {
    if i == |s| then []
    else match AlternativeAt(s, i, alts)
      case Some(w) => [w] + ScanMatches(s, if |w| == 0 then i + 1 else i + |w|, alts)
      case None => ScanMatches(s, i + 1, alts)
  }

  /** Reference reading: the alternative occurring as a whole word at each
      position from i on, position by position. */
  function WordsFrom(s: string, i: nat, alts: seq<string>): seq<string>
    requires i <= |s|
    decreases |s| - i
  {
    if i == |s| then []
    else
      (match AlternativeAt(s, i, alts) case Some(w) => [w] case None => [])
      + WordsFrom(s, i + 1, alts)
  }

  /** No `\b` falls strictly inside an occurrence of a word made of letters. */
  lemma NoBoundaryInside(s: string, i: int, w: string, k: int)
    requires SpelledAt(s, w, i) && IsLowerWord(w)
    requires i < k < i + |w|
    ensures !IsBoundary(s, k)
  {
    assert s[i + (k - 1 - i)] == w[k - 1 - i];
    assert s[i + (k - i)] == w[k - i];
  }

  /** Two letter words occurring as whole words at one position are the same. */
  lemma WholeWordUnique(s: string, i: int, w1: string, w2: string)
    requires |w1| > 0 && |w2| > 0 && IsLowerWord(w1) && IsLowerWord(w2)
    requires WholeWordAt(s, i, w1) && WholeWordAt(s, i, w2)
    ensures w1 == w2
  {
    if |w1| < |w2| {
      NoBoundaryInside(s, i, w2, i + |w1|);
    } else if |w2| < |w1| {
      NoBoundaryInside(s, i, w1, i + |w2|);
    }
  }

  /** One step of the reference reading at a position where no word starts. */
  lemma WordsFromNone(s: string, k: nat, alts: seq<string>)
    requires k < |s| && AlternativeAt(s, k, alts).None?
    ensures WordsFrom(s, k, alts) == WordsFrom(s, k + 1, alts)
  {
    assert WordsFrom(s, k, alts) == [] + WordsFrom(s, k + 1, alts);
  }

  /** One step of the reference reading at a position where word w starts. */
  lemma WordsFromSome(s: string, k: nat, w: string, alts: seq<string>)
    requires k < |s| && AlternativeAt(s, k, alts) == Some(w)
    ensures WordsFrom(s, k, alts) == [w] + WordsFrom(s, k + 1, alts)
  {
  }

  /** No alternative starts as a whole word strictly inside a whole-word match. */
  lemma NoKeywordInside(s: string, i: nat, w: string, k: nat, alts: seq<string>)
    requires WholeWordAt(s, i, w) && IsLowerWord(w)
    requires i < k < i + |w|
    ensures k < |s| && AlternativeAt(s, k, alts).None?
  {
    NoBoundaryInside(s, i, w, k);
  }

  /** Positions strictly inside a whole-word match contribute nothing. */
  lemma {:induction false} WordsFromSkip(s: string, i: nat, w: string, k: nat, alts: seq<string>)
    requires WholeWordAt(s, i, w) && IsLowerWord(w)
    requires i < k <= i + |w|
    ensures WordsFrom(s, k, alts) == WordsFrom(s, i + |w|, alts)
    decreases i + |w| - k
  {
    if k < i + |w| {
      NoKeywordInside(s, i, w, k, alts);
      WordsFromNone(s, k, alts);
      WordsFromSkip(s, i, w, k + 1, alts);
    }
  }

  /** One step of the scan at a position where no word starts. */
  lemma ScanNone(s: string, k: nat, alts: seq<string>)
    requires k < |s| && LetterWords(alts) && AlternativeAt(s, k, alts).None?
    requires ScanMatches(s, k + 1, alts) == WordsFrom(s, k + 1, alts)
    ensures ScanMatches(s, k, alts) == WordsFrom(s, k, alts)
  {
    WordsFromNone(s, k, alts);
  }

  /** The scan at a position where word w starts takes w and resumes after it. */
  lemma ScanTake(s: string, k: nat, w: string, alts: seq<string>)
    requires k < |s| && LetterWords(alts) && AlternativeAt(s, k, alts) == Some(w)
    ensures k + |w| <= |s| && ScanMatches(s, k, alts) == [w] + ScanMatches(s, k + |w|, alts)
  {
  }

  /** The reference reading at a position where word w starts: w, then nothing
      until after w. */
  lemma WordsFromJump(s: string, k: nat, w: string, alts: seq<string>)
    requires k < |s| && LetterWords(alts) && AlternativeAt(s, k, alts) == Some(w)
    ensures k + |w| <= |s| && WordsFrom(s, k, alts) == [w] + WordsFrom(s, k + |w|, alts)
  {
    assert w in alts;
    WordsFromSome(s, k, w, alts);
    WordsFromSkip(s, k, w, k + 1, alts);
  }

  /** One step of the scan at a position where word w starts. */
  lemma ScanSome(s: string, k: nat, w: string, alts: seq<string>)
    requires k < |s| && LetterWords(alts) && AlternativeAt(s, k, alts) == Some(w)
    requires ScanMatches(s, k + |w|, alts) == WordsFrom(s, k + |w|, alts)
    ensures ScanMatches(s, k, alts) == WordsFrom(s, k, alts)
  {
    ScanTake(s, k, w, alts);
    WordsFromJump(s, k, w, alts);
  }

  /** The global scan finds every whole-word occurrence: resuming after a match
      skips no other match. */
  lemma {:induction false} ScanFindsEveryWord(s: string, i: nat, alts: seq<string>)
    requires i <= |s| && LetterWords(alts)
    ensures ScanMatches(s, i, alts) == WordsFrom(s, i, alts)
    decreases |s| - i
  {
    if i < |s| {
      var here := AlternativeAt(s, i, alts);
      if here.Some? {
        ScanFindsEveryWord(s, i + |here.value|, alts);
        ScanSome(s, i, here.value, alts);
      } else {
        ScanFindsEveryWord(s, i + 1, alts);
        ScanNone(s, i, alts);
      }
    }
  }

  /** The alternative taken at a position is w exactly when w is an alternative
      that occurs there as a whole word. */
  lemma AlternativeAtIs(s: string, i: int, w: string, alts: seq<string>)
    requires 0 <= i <= |s| && LetterWords(alts)
    ensures AlternativeAt(s, i, alts) == Some(w) <==> w in alts && WholeWordAt(s, i, w)
  {
    var here := AlternativeAt(s, i, alts);
    if w in alts && WholeWordAt(s, i, w) {
      WholeWordUnique(s, i, here.value, w);
    }
  }

  /** A whole-word occurrence from position i is at i or from i + 1 on. */
  lemma WholeWordFrom(s: string, i: nat, w: string)
    requires i < |s|
    ensures (exists p :: i <= p <= |s| && WholeWordAt(s, p, w)) <==>
      WholeWordAt(s, i, w) || exists p :: i + 1 <= p <= |s| && WholeWordAt(s, p, w)
  {
    if exists p :: i <= p <= |s| && WholeWordAt(s, p, w) {
      var p :| i <= p <= |s| && WholeWordAt(s, p, w);
      if p > i {
        assert i + 1 <= p <= |s| && WholeWordAt(s, p, w);
      }
    }
  }

  /** A word read from position i is the one taken at i or one read later. */
  lemma WordsFromHead(s: string, i: nat, w: string, alts: seq<string>)
    requires i < |s|
    ensures w in WordsFrom(s, i, alts) <==> AlternativeAt(s, i, alts) == Some(w) || w in WordsFrom(s, i + 1, alts)
  {
    var here := AlternativeAt(s, i, alts);
    if here.Some? {
      WordsFromSome(s, i, here.value, alts);
    } else {
      WordsFromNone(s, i, alts);
    }
  }

  /** A word is found from position i exactly when it is an alternative that
      occurs as a whole word at some position from i on. */
  lemma {:induction false} WordsFromMembers(s: string, i: nat, w: string, alts: seq<string>)
    requires i <= |s| && LetterWords(alts)
    ensures w in WordsFrom(s, i, alts) <==> w in alts && exists p :: i <= p <= |s| && WholeWordAt(s, p, w)
    decreases |s| - i
  {
    if i < |s| {
      WordsFromMembers(s, i + 1, w, alts);
      WordsFromHead(s, i, w, alts);
      AlternativeAtIs(s, i, w, alts);
      WholeWordFrom(s, i, w);
    } else {
      assert WordsFrom(s, i, alts) == [];
      if exists p :: i <= p <= |s| && WholeWordAt(s, p, w) {
        var p :| i <= p <= |s| && WholeWordAt(s, p, w);
        assert p == |s| && |w| == 0;
      }
    }
  }

  // ---------------------------------------------------------------------------
  // `[...new Set(xs)]`: de-duplication in order of first appearance

  predicate Distinct<T(==)>(xs: seq<T>) {
    forall i, j :: 0 <= i < j < |xs| ==> xs[i] != xs[j]
  }

  function Dedup<T(==)>(xs: seq<T>): seq<T>
    decreases |xs|
  {
    if xs == [] then []
    else
      var kept := Dedup(xs[..|xs| - 1]);
      if xs[|xs| - 1] in kept then kept else kept + [xs[|xs| - 1]]
  }

  /** The position of the first occurrence of x in xs. */
  function FirstIndex<T(==)>(xs: seq<T>, x: T): (k: nat)
    requires x in xs
    ensures k < |xs| && xs[k] == x && x !in xs[..k]
  {
    if xs[0] == x then 0
    else
      var k := FirstIndex(xs[1..], x);
      assert xs[..k + 1] == [xs[0]] + xs[1..][..k];
      k + 1
  }

  lemma FirstIndexPrefix<T>(xs: seq<T>, x: T, n: nat)
    requires n <= |xs| && x in xs[..n]
    ensures FirstIndex(xs[..n], x) == FirstIndex(xs, x)
  {
    var k := FirstIndex(xs[..n], x);
    var m := FirstIndex(xs, x);
    assert xs[..n][..k] == xs[..k];
    assert xs[k] == x;
    assert forall j :: 0 <= j < m ==> xs[..m][j] == xs[j];
    assert forall j :: 0 <= j < k ==> xs[..k][j] == xs[j];
  }

  /** The Set spread keeps each element once, every element, and the order in
      which elements first appear. */
  lemma {:induction false} DedupSpec<T>(xs: seq<T>)
    ensures Distinct(Dedup(xs))
    ensures forall x :: x in Dedup(xs) <==> x in xs
    ensures forall i, j :: 0 <= i < j < |Dedup(xs)| ==> FirstIndex(xs, Dedup(xs)[i]) < FirstIndex(xs, Dedup(xs)[j])
    decreases |xs|
  {
    if xs != [] {
      var init := xs[..|xs| - 1];
      var last := xs[|xs| - 1];
      DedupSpec(init);
      var kept := Dedup(init);
      assert xs == init + [last];
      forall x | x in init ensures FirstIndex(xs, x) == FirstIndex(init, x) {
        FirstIndexPrefix(xs, x, |xs| - 1);
      }
      if last !in kept {
        assert forall j :: 0 <= j < |xs| - 1 ==> xs[j] == init[j];
        assert FirstIndex(xs, last) == |xs| - 1;
      }
    }
  }

  // ---------------------------------------------------------------------------
  // Topic fallback as a whole

  function Min(a: int, b: int): int {
    if a < b then a else b
  }

  /** The matches of the pattern in t, de-duplicated, at most three, joined with
      ", "; no match gives "general". */
  function TopicText(t: string, alts: seq<string>): string {
    var keywords := ScanMatches(t, 0, alts);
    if keywords == [] then "general"
    else
      var unique := Dedup(keywords);
      Join(unique[..Min(3, |unique|)], ", ")
  }

  /** The fallback topics: the topic pattern applied to the lower-cased content. */
  function KeywordTopics(content: string): string {
    TopicText(ToLower(content), Vocabulary)
  }

  /** The distinct vocabulary words of the lower-cased content in order of first
      appearance, found position by position. */
  function FoundTopics(content: string): seq<string> {
    Dedup(WordsFrom(ToLower(content), 0, Vocabulary))
  }

  /** The distinct whole-word matches: each an alternative occurring in t, every
      such alternative present, ordered by first appearance. */
  lemma FoundWordsSpec(t: string, alts: seq<string>)
    requires LetterWords(alts)
    ensures var words := WordsFrom(t, 0, alts);
      var found := Dedup(words);
      && Distinct(found)
      && (forall w :: w in found <==> w in words)
      && (forall w :: w in found <==> w in alts && exists p :: 0 <= p <= |t| && WholeWordAt(t, p, w))
      && (forall i, j :: 0 <= i < j < |found| ==> FirstIndex(words, found[i]) < FirstIndex(words, found[j]))
  {
    DedupSpec(WordsFrom(t, 0, alts));
    forall w ensures w in WordsFrom(t, 0, alts) <==> w in alts && exists p :: 0 <= p <= |t| && WholeWordAt(t, p, w) {
      WordsFromMembers(t, 0, w, alts);
    }
  }

  /** The list of found topics: distinct, each a vocabulary word occurring as a
      whole word in the lower-cased content, every such word present, ordered by
      first appearance. */
  lemma FoundTopicsSpec(content: string)
    ensures var words := WordsFrom(ToLower(content), 0, Vocabulary);
      var found := FoundTopics(content);
      && Distinct(found)
      && (forall w :: w in found <==> w in words)
      && (forall w :: w in found <==>
            w in Vocabulary && exists p :: 0 <= p <= |content| && WholeWordAt(ToLower(content), p, w))
      && (forall i, j :: 0 <= i < j < |found| ==> FirstIndex(words, found[i]) < FirstIndex(words, found[j]))
  {
    VocabularyWords();
    FoundWordsSpec(ToLower(content), Vocabulary);
  }

  /** The topic text is "general" exactly when nothing matches; otherwise it
      splits back on ", " into the first three distinct matches. */
  lemma TopicTextSpec(t: string, alts: seq<string>)
    requires TopicWords(alts)
    ensures var found := Dedup(WordsFrom(t, 0, alts));
      && (TopicText(t, alts) == "general" <==> found == [])
      && (found != [] ==> SplitCommaSpace(TopicText(t, alts)) == found[..Min(3, |found|)])
  {
    var words := WordsFrom(t, 0, alts);
    var found := Dedup(words);
    ScanFindsEveryWord(t, 0, alts);
    DedupSpec(words);
    assert |words| > 0 ==> words[0] in words;
    if found == [] {
      assert words == [];
    } else {
      assert words != [];
      var kept := found[..Min(3, |found|)];
      assert TopicText(t, alts) == Join(kept, ", ");
      forall k | 0 <= k < |kept| ensures ',' !in kept[k] && kept[k] != "general" {
        assert kept[k] in words;
        WordsFromMembers(t, 0, kept[k], alts);
      }
      SplitJoin(kept);
      GeneralIsOneTopic();
    }
  }

  /** The fallback topics are "general" exactly when no vocabulary word occurs;
      otherwise they spell out the first three found topics, which a reader can
      split back on ", ". */
  lemma KeywordTopicsSpec(content: string)
    ensures var found := FoundTopics(content);
      && (KeywordTopics(content) == "general" <==> found == [])
      && (found != [] ==> SplitCommaSpace(KeywordTopics(content)) == found[..Min(3, |found|)])
  {
    VocabularyWords();
    TopicTextSpec(ToLower(content), Vocabulary);
  }

  /** The topic text is never empty. */
  lemma TopicTextNonEmpty(t: string, alts: seq<string>)
    requires TopicWords(alts)
    ensures TopicText(t, alts) != ""
  {
    TopicTextSpec(t, alts);
    FoundWordsSpec(t, alts);
    var found := Dedup(WordsFrom(t, 0, alts));
    if found != [] {
      assert found[0] in found;
      assert SplitCommaSpace("") == [""];
      assert found[..Min(3, |found|)][0] == found[0];
    }
  }

  /** The fallback never yields an empty topic string. */
  lemma KeywordTopicsNonEmpty(content: string)
    ensures KeywordTopics(content) != ""
  {
    VocabularyWords();
    TopicTextNonEmpty(ToLower(content), Vocabulary);
  }

  lemma GeneralIsOneTopic()
    ensures SplitCommaSpace("general") == ["general"]
  {
    assert IndexOf("general", ',') < 0;
  }

  // ---------------------------------------------------------------------------
  // The classification with its fallbacks

  /** Sentiment from the chat model's answer, or from the keywords when the call
      threw. */
  function ChatSentiment(content: string, reply: Call<ChatReply>): (r: Sentiment)
    ensures r.name != ""
    ensures reply.Threw? ==> r == KeywordSentiment(content)
    ensures reply.Returned? ==> r == ResponseSentiment(reply.value)
  {
    match reply
    case Threw => KeywordSentiment(content)
    case Returned(answer) => ResponseSentiment(answer)
  }

  /** Sentiment from the text classifier's answer, or from the keywords when the
      call threw. */
  function ClassifierSentiment(content: string, reply: Call<LabelReply>): (r: Sentiment)
    ensures r.name != ""
    ensures reply.Threw? ==> r == KeywordSentiment(content)
    ensures reply.Returned? ==> r == LabelSentiment(reply.value)
  {
    match reply
    case Threw => KeywordSentiment(content)
    case Returned(answer) => LabelSentiment(answer)
  }

  /** Topics from the chat model's answer, or from the vocabulary scan when the
      call threw; never empty. */
  function Topics(content: string, reply: Call<ChatReply>): (r: string)
    ensures r != ""
    ensures reply.Threw? ==> r == KeywordTopics(content)
    ensures reply.Returned? ==> r == ResponseTopics(reply.value)
  {
    KeywordTopicsNonEmpty(content);
    match reply
    case Threw => KeywordTopics(content)
    case Returned(answer) => ResponseTopics(answer)
  }

  // ---------------------------------------------------------------------------
  // A worked example of the topic fallback

  /** The first two letters of an alternative of the topic pattern. */
  predicate Opens(a: char, b: char) {
    || (a == 'd' && b == 'a') || (a == 'a' && b == 'p') || (a == 'm' && b == 'o') || (a == 'p' && b == 'r')
    || (a == 'f' && b == 'e') || (a == 'b' && b == 'u') || (a == 'u' && b == 'i') || (a == 'l' && b == 'o')
  }

  /** What the example needs of the alternatives: letter words, each opening
      with a pair `Opens` accepts, among them "bug", "dashboard" and "api". */
  predicate ExampleWords(alts: seq<string>) {
    && LetterWords(alts)
    && (forall w :: w in alts ==> |w| >= 2 && Opens(w[0], w[1]))
    && "bug" in alts && "dashboard" in alts && "api" in alts
  }

  lemma VocabularyOpens()
    ensures forall w :: w in Vocabulary ==> |w| >= 2 && Opens(w[0], w[1])
  {
    assert |"dashboard"| >= 2 && Opens("dashboard"[0], "dashboard"[1]);
    assert |"api"| >= 2 && Opens("api"[0], "api"[1]);
    assert |"mobile"| >= 2 && Opens("mobile"[0], "mobile"[1]);
    assert |"pricing"| >= 2 && Opens("pricing"[0], "pricing"[1]);
    assert |"feature"| >= 2 && Opens("feature"[0], "feature"[1]);
    assert |"bug"| >= 2 && Opens("bug"[0], "bug"[1]);
    assert |"ui"| >= 2 && Opens("ui"[0], "ui"[1]);
    assert |"login"| >= 2 && Opens("login"[0], "login"[1]);
  }

  lemma VocabularyHasExampleWords()
    ensures "bug" in Vocabulary && "dashboard" in Vocabulary && "api" in Vocabulary
  {
    assert Vocabulary[5] == "bug";
    assert Vocabulary[0] == "dashboard";
    assert Vocabulary[1] == "api";
  }

  lemma VocabularyExampleWords()
    ensures ExampleWords(Vocabulary)
  {
    VocabularyWords();
    VocabularyOpens();
    VocabularyHasExampleWords();
  }

  lemma OpeningsCover(s: string, i: nat, alts: seq<string>)
    requires i + 2 <= |s| && ExampleWords(alts)
    ensures forall w :: w in alts && SpelledAt(s, w, i) ==> Opens(s[i], s[i + 1])
  {
    forall w | w in alts && SpelledAt(s, w, i) ensures Opens(s[i], s[i + 1]) {
      assert s[i + 0] == w[0] && s[i + 1] == w[1];
    }
  }

  /** A position whose two characters open no alternative is passed over. */
  lemma PassOver(s: string, i: nat, alts: seq<string>)
    requires i + 2 <= |s| && ExampleWords(alts) && !Opens(s[i], s[i + 1])
    ensures ScanMatches(s, i, alts) == ScanMatches(s, i + 1, alts)
  {
    OpeningsCover(s, i, alts);
  }

  /** A stretch of positions none of which opens an alternative is passed over. */
  lemma {:induction false} PassOverRun(s: string, i: nat, j: nat, alts: seq<string>)
    requires i <= j && j + 1 <= |s| && ExampleWords(alts)
    requires forall k :: i <= k < j ==> !Opens(s[k], s[k + 1])
    ensures ScanMatches(s, i, alts) == ScanMatches(s, j, alts)
    decreases j - i
  {
    if i < j {
      PassOver(s, i, alts);
      PassOverRun(s, i + 1, j, alts);
    }
  }

  /** An alternative spelled out character by character, with no word
      character on either side, is taken. */
  lemma TakeWord(s: string, i: nat, w: string, alts: seq<string>)
    requires LetterWords(alts) && w in alts && i + |w| <= |s|
    requires forall k :: 0 <= k < |w| ==> s[i + k] == w[k]
    requires i == 0 || !IsWordChar(s[i - 1])
    requires i + |w| == |s| || !IsWordChar(s[i + |w|])
    ensures ScanMatches(s, i, alts) == [w] + ScanMatches(s, i + |w|, alts)
  {
    assert IsWordChar(s[i]) by { assert s[i + 0] == w[0]; }
    assert IsWordChar(s[i + |w| - 1]) by { assert s[i + (|w| - 1)] == w[|w| - 1]; }
    assert WholeWordAt(s, i, w);
    var found := AlternativeAt(s, i, alts);
    WholeWordUnique(s, i, found.value, w);
    ScanTake(s, i, w, alts);
  }

  /** The sentence of the worked example below. */
  const ExampleText: string := "Found a bug in the dashboard API"

  /** The first half of its lower-cased text, character by character. */
  predicate ExampleFront(t: string) {
    |t| == 32
    && t[0] == 'f' && t[1] == 'o' && t[2] == 'u' && t[3] == 'n' && t[4] == 'd' && t[5] == ' ' && t[6] == 'a' && t[7] == ' '
    && t[8] == 'b' && t[9] == 'u' && t[10] == 'g' && t[11] == ' ' && t[12] == 'i' && t[13] == 'n' && t[14] == ' ' && t[15] == 't'
  }

  /** The second half of its lower-cased text, character by character. */
  predicate ExampleBack(t: string) {
    |t| == 32
    && t[16] == 'h' && t[17] == 'e' && t[18] == ' ' && t[19] == 'd' && t[20] == 'a' && t[21] == 's' && t[22] == 'h' && t[23] == 'b'
    && t[24] == 'o' && t[25] == 'a' && t[26] == 'r' && t[27] == 'd' && t[28] == ' ' && t[29] == 'a' && t[30] == 'p' && t[31] == 'i'
  }

  predicate ExampleShape(t: string) {
    ExampleFront(t) && ExampleBack(t)
  }

  lemma ExampleFrontLowered()
    ensures ExampleFront(ToLower(ExampleText))
  {
  }

  lemma ExampleBackLowered()
    ensures ExampleBack(ToLower(ExampleText))
  {
  }

  lemma ExampleLowered()
    ensures ExampleShape(ToLower(ExampleText))
  {
    ExampleFrontLowered();
    ExampleBackLowered();
  }

  lemma ExampleOpening(t: string, alts: seq<string>)
    requires |t| == 32 && ExampleWords(alts)
    requires t[0] == 'f' && t[1] == 'o' && t[2] == 'u' && t[3] == 'n' && t[4] == 'd' && t[5] == ' ' && t[6] == 'a' && t[7] == ' '
    requires t[8] == 'b'
    ensures ScanMatches(t, 0, alts) == ScanMatches(t, 8, alts)
  {
    PassOverRun(t, 0, 8, alts);
  }

  lemma ExampleBug(t: string, alts: seq<string>)
    requires |t| == 32 && ExampleWords(alts)
    requires t[7] == ' ' && t[8] == 'b' && t[9] == 'u' && t[10] == 'g' && t[11] == ' '
    ensures ScanMatches(t, 8, alts) == ["bug"] + ScanMatches(t, 11, alts)
  {
    TakeWord(t, 8, "bug", alts);
  }

  lemma ExampleMiddle(t: string, alts: seq<string>)
    requires |t| == 32 && ExampleWords(alts)
    requires t[11] == ' ' && t[12] == 'i' && t[13] == 'n' && t[14] == ' ' && t[15] == 't'
    requires t[16] == 'h' && t[17] == 'e' && t[18] == ' ' && t[19] == 'd'
    ensures ScanMatches(t, 11, alts) == ScanMatches(t, 19, alts)
  {
    PassOverRun(t, 11, 19, alts);
  }

  lemma ExampleDashboard(t: string, alts: seq<string>)
    requires |t| == 32 && ExampleWords(alts)
    requires t[18] == ' ' && t[19] == 'd' && t[20] == 'a' && t[21] == 's' && t[22] == 'h' && t[23] == 'b' && t[24] == 'o' && t[25] == 'a'
    requires t[26] == 'r' && t[27] == 'd' && t[28] == ' '
    ensures ScanMatches(t, 19, alts) == ["dashboard"] + ScanMatches(t, 28, alts)
  {
    TakeWord(t, 19, "dashboard", alts);
  }

  lemma ExampleApi(t: string, alts: seq<string>)
    requires |t| == 32 && ExampleWords(alts)
    requires t[27] == 'd' && t[28] == ' ' && t[29] == 'a' && t[30] == 'p' && t[31] == 'i'
    ensures ScanMatches(t, 28, alts) == ["api"]
  {
    PassOver(t, 28, alts);
    TakeWord(t, 29, "api", alts);
  }

  lemma ExampleScan(t: string, alts: seq<string>)
    requires ExampleShape(t) && ExampleWords(alts)
    ensures ScanMatches(t, 0, alts) == ["bug", "dashboard", "api"]
  {
    ExampleOpening(t, alts);
    ExampleBug(t, alts);
    ExampleMiddle(t, alts);
    ExampleDashboard(t, alts);
    ExampleApi(t, alts);
  }

  lemma TopicTextFound(t: string, alts: seq<string>, found: seq<string>)
    requires LetterWords(alts) && ScanMatches(t, 0, alts) == found && |Dedup(found)| == 3
    ensures TopicText(t, alts) == Join(Dedup(found), ", ")
  {
    assert Dedup(found)[..3] == Dedup(found);
  }

  lemma ExampleDedup()
    ensures Dedup(["bug", "dashboard", "api"]) == ["bug", "dashboard", "api"]
  {
    var found := ["bug", "dashboard", "api"];
    assert found[..2] == ["bug", "dashboard"];
    assert ["bug", "dashboard"][..1] == ["bug"];
    assert ["bug"][..0] == [];
    assert Dedup(["bug"]) == ["bug"];
    assert Dedup(["bug", "dashboard"]) == ["bug", "dashboard"];
  }

  lemma ExampleJoin()
    ensures Join(["bug", "dashboard", "api"], ", ") == "bug, dashboard, api"
  {
    var found := ["bug", "dashboard", "api"];
    assert found[1..] == ["dashboard", "api"];
    assert found[1..][1..] == ["api"];
    assert Join(["api"], ", ") == "api";
    assert Join(["dashboard", "api"], ", ") == "dashboard" + ", " + "api";
    assert Join(found, ", ") == "bug" + ", " + ("dashboard" + ", " + "api");
  }

  /** The worked example: "Found a bug in the dashboard API" has the topics
      "bug, dashboard, api", in order of appearance. */
  lemma KeywordTopicsExample()
    ensures KeywordTopics(ExampleText) == "bug, dashboard, api"
  {
    var t := ToLower(ExampleText);
    VocabularyExampleWords();
    ExampleLowered();
    ExampleScan(t, Vocabulary);
    ExampleDedup();
    ExampleJoin();
    TopicTextFound(t, Vocabulary, ["bug", "dashboard", "api"]);
  }
}
