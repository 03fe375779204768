/**
  The packaged analyzer (`src/analyzer.py`): a six-field result record whose
  counts always stay local, and an orchestration that takes over only the
  sentiment score and the keywords from the remote reply.
*/
module SrcAnalyzer {
  import opened Options
  import opened Json
  import opened PyStr
  import opened Metrics
  import opened Fences
  import opened Remote

  const ModelName: string := "gemini-pro"

  /** Characters of the text sent in the prompt (`text[:2000]`). */
  const PromptLimit: nat := 2000

  datatype AnalyzeResult = AnalyzeResult(
    wordCount: nat,
    charCount: nat,
    sentenceCount: nat,
    sentimentScore: Value,
    keywords: Value,
    latencyMs: Millis)

  /** `calculate_local_metrics`: the three counts, no score, no keywords, zero latency. */
  function CalculateLocalMetrics(text: string): (r: AnalyzeResult)
    ensures r.wordCount == RunCount(text)
    ensures r.wordCount == 0 <==> AllSpace(text)
    ensures r.charCount == |text|
    ensures r.sentenceCount == SentenceCount(text) && r.sentenceCount <= 1 + Terminators(text)
    ensures r.sentimentScore == Null && r.keywords == List([]) && r.latencyMs == 0.0
  {
    AnalyzeResult(
      wordCount := WordCount(text),
      charCount := CharCount(text),
      sentenceCount := SentenceCount(text),
      sentimentScore := Null,
      keywords := List([]),
      latencyMs := 0.0)
  }

  /** The record `analyze_with_gemini` returns, as a function of the text and the remote backend. */
  function Analyze(text: string, b: Backend): (r: AnalyzeResult)
    ensures Enrich(text, ModelName, PromptLimit, b).None? ==> r == CalculateLocalMetrics(text)
    ensures Enrich(text, ModelName, PromptLimit, b).Some? ==>
      r.latencyMs == Enrich(text, ModelName, PromptLimit, b).value.latencyMs
    ensures r.wordCount == RunCount(text) && r.charCount == |text| && r.sentenceCount == SentenceCount(text)
  {
    var local := CalculateLocalMetrics(text);
    match Enrich(text, ModelName, PromptLimit, b)
    case None => local
    case Some(ins) =>
      local.(
        sentimentScore := Get(ins.data, "sentiment_score"),
        keywords := GetOr(ins.data, "keywords", List([])),
        latencyMs := local.latencyMs + ins.latencyMs)
  }

  /** `analyze_with_gemini`: the local record, then the score, keywords and latency written in place on success. */
  method AnalyzeWithGemini(text: string, b: Backend) returns (result: AnalyzeResult)
    ensures result == Analyze(text, b)
  {
    result := CalculateLocalMetrics(text);
    var insight := Enrich(text, ModelName, PromptLimit, b);
    if insight.Some? {
      var data := insight.value.data;
      result := result.(sentimentScore := Get(data, "sentiment_score"));
      result := result.(keywords := GetOr(data, "keywords", List([])));
      result := result.(latencyMs := result.latencyMs + insight.value.latencyMs);
    }
  }

  /** Any failure returns exactly the local record, so `sentiment_score` stays `None`. */
  lemma FailureGivesLocalMetrics(text: string, b: Backend)
    requires Enrich(text, ModelName, PromptLimit, b) == None
    ensures Analyze(text, b) == CalculateLocalMetrics(text)
    ensures Analyze(text, b).sentimentScore == Null
  {
  }

  /** On a decoded object the score takes its value or `None`, keywords its value or `[]`, and latency grows by the call's latency. */
  lemma SuccessMergesInsight(text: string, b: Backend, ins: Insight)
    requires Enrich(text, ModelName, PromptLimit, b) == Some(ins)
    ensures var r := Analyze(text, b);
      && r.sentimentScore == (if "sentiment_score" in ins.data then ins.data["sentiment_score"] else Null)
      && r.keywords == (if "keywords" in ins.data then ins.data["keywords"] else List([]))
      && r.latencyMs == CalculateLocalMetrics(text).latencyMs + ins.latencyMs
  {
  }

  /** Whatever the reply holds, the counts are the local ones and latency never decreases. */
  lemma CountsStayLocal(text: string, b: Backend)
    ensures Analyze(text, b).wordCount == RunCount(text)
    ensures Analyze(text, b).charCount == |text|
    ensures Analyze(text, b).sentenceCount == SentenceCount(text)
    ensures Analyze(text, b).latencyMs >= CalculateLocalMetrics(text).latencyMs
  {
  }

  /** Texts that agree on their first 2000 characters get the same score, keywords and latency. */
  lemma InsightDependsOnlyOnExcerpt(t1: string, t2: string, b: Backend)
    requires |t1| >= PromptLimit && |t2| >= PromptLimit && t1[..PromptLimit] == t2[..PromptLimit]
    ensures Analyze(t1, b).sentimentScore == Analyze(t2, b).sentimentScore
    ensures Analyze(t1, b).keywords == Analyze(t2, b).keywords
    ensures Analyze(t1, b).latencyMs == Analyze(t2, b).latencyMs
  {
    EnrichDependsOnlyOnExcerpt(t1, t2, ModelName, PromptLimit, b);
  }

  /** The unit test's reply, a fenced payload with a score and keywords, on any text: local word count, that score and those keywords. */
  lemma TestReply(text: string, b: Backend, pre: string, body: string, post: string,
                   latency: Millis, score: Value, kws: seq<string>)
    requires b.credentialPresent
    requires b.generate(ModelName, Prefix(text, PromptLimit))
          == Response(pre + JsonFence + body + Fence + post, latency)
    requires NoBacktick(pre) && NoBacktick(body) && NoBacktick(post) && !(JsonTag <= post)
    requires b.loads(Strip(pre + body + post))
          == Some(Dict(map["sentiment_score" := score, "keywords" := Strings(kws)]))
    ensures Analyze(text, b).wordCount == RunCount(text)
    ensures Analyze(text, b).keywords == Strings(kws)
    ensures Analyze(text, b).sentimentScore == score
  {
    var data := map["sentiment_score" := score, "keywords" := Strings(kws)];
    assert Enrich(text, ModelName, PromptLimit, b) == Some(Insight(data, latency)) by {
      EnrichOfFencedReply(text, ModelName, PromptLimit, b, pre, body, post, latency, data);
    }
    assert "keywords" in data && data["keywords"] == Strings(kws);
  }

  /** The unit test's success scenario: 7 local words, score 0.85 and exactly the payload's keywords. */
  lemma TestSuccessScenario(ws: seq<string>, b: Backend, pre: string, body: string, post: string,
                            latency: Millis, score: Value, kws: seq<string>)
    requires ws == ["I", "love", "coding", "with", "Python", "and", "AI!"]
    requires score == Float(0.85)
    requires b.credentialPresent
    requires b.generate(ModelName, Prefix(Join(ws, ' '), PromptLimit))
          == Response(pre + JsonFence + body + Fence + post, latency)
    requires NoBacktick(pre) && NoBacktick(body) && NoBacktick(post) && !(JsonTag <= post)
    requires b.loads(Strip(pre + body + post))
          == Some(Dict(map["sentiment_score" := score, "keywords" := Strings(kws)]))
    ensures Analyze(Join(ws, ' '), b).wordCount == 7
    ensures Analyze(Join(ws, ' '), b).keywords == Strings(kws)
    ensures Analyze(Join(ws, ' '), b).sentimentScore == Float(0.85)
  {
    TestReply(Join(ws, ' '), b, pre, body, post, latency, score, kws);
    ExampleWords(ws);
  }

  /** The unit test's failure scenario: the model cannot be built, so "Some text" gives 2 local words and no score. */
  lemma TestFailureScenario(w1: string, w2: string, b: Backend)
    requires w1 == "Some" && w2 == "text"
    requires b.generate(ModelName, Prefix(w1 + " " + w2, PromptLimit)) == CallFailed
    ensures Analyze(w1 + " " + w2, b).wordCount == 2
    ensures Analyze(w1 + " " + w2, b).sentimentScore == Null
  {
    ExampleTwoWords(w1, w2);
  }
}
