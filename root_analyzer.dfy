/**
  The top-level analyzer (`analyzer.py`): a nine-field result record, the
  local metrics, and the orchestration that overlays the remote model's
  insights and counts on the local record, falling back to the local record
  whenever any remote step fails.

  The fields the remote reply can write hold whatever JSON value the reply
  carries (Python does not check the dataclass annotations), so they are
  `Value`s; the local record puts `Int`s, `Null`s and an empty `List` there.
*/
module RootAnalyzer {
  import opened Options
  import opened Json
  import opened PyStr
  import opened Metrics
  import opened Fences
  import opened Remote

  const ModelName: string := "gemini-2.0-flash"

  /** Characters of the text sent in the prompt (`text[:4000]`). */
  const PromptLimit: nat := 4000

  datatype AnalyzeResult = AnalyzeResult(
    wordCount: Value,
    charCount: Value,
    sentenceCount: Value,
    sentimentScore: Value,
    sentimentLabel: Value,
    sentimentConfidence: Value,
    summary: Value,
    keywords: Value,
    latencyMs: Millis)

  /**
    `calculate_local_metrics`: the three counts, every insight field `None`,
    no keywords and zero latency (the elapsed time is only logged).
  */
  function CalculateLocalMetrics(text: string): (r: AnalyzeResult)
    ensures r.wordCount == Int(RunCount(text))
    ensures r.wordCount == Int(0) <==> AllSpace(text)
    ensures r.charCount == Int(|text|)
    ensures r.sentenceCount == Int(SentenceCount(text))
    ensures r.sentenceCount.i <= 1 + Terminators(text)
    ensures r.sentimentScore == Null && r.sentimentLabel == Null
    ensures r.sentimentConfidence == Null && r.summary == Null
    ensures r.keywords == List([]) && r.latencyMs == 0.0
  {
    AnalyzeResult(
      wordCount := Int(WordCount(text)),
      charCount := Int(CharCount(text)),
      sentenceCount := Int(SentenceCount(text)),
      sentimentScore := Null,
      sentimentLabel := Null,
      sentimentConfidence := Null,
      summary := Null,
      keywords := List([]),
      latencyMs := 0.0)
  }

  /** The record `analyze_with_gemini` returns, as a function of the text and the remote backend. */
  function Analyze(text: string, b: Backend): (r: AnalyzeResult)
    ensures Enrich(text, ModelName, PromptLimit, b).None? ==> r == CalculateLocalMetrics(text)
    ensures Enrich(text, ModelName, PromptLimit, b).Some? ==>
      r.latencyMs == Enrich(text, ModelName, PromptLimit, b).value.latencyMs
    ensures r.sentimentScore == Null
  {
    var local := CalculateLocalMetrics(text);
    match Enrich(text, ModelName, PromptLimit, b)
    case None => local
    case Some(ins) =>
      var data := ins.data;
      local.(
        sentimentLabel := Get(data, "sentiment_label"),
        sentimentConfidence := Get(data, "sentiment_confidence"),
        summary := Get(data, "summary"),
        keywords := GetOr(data, "keywords", List([])),
        wordCount := GetOr(data, "word_count", local.wordCount),
        sentenceCount := GetOr(data, "sentence_count", local.sentenceCount),
        charCount := GetOr(data, "char_count", local.charCount),
        latencyMs := local.latencyMs + ins.latencyMs)
  }

  /**
    `analyze_with_gemini`: start from the local record and, once the remote
    steps have all succeeded, overwrite its fields one assignment at a time.
  */
  method AnalyzeWithGemini(text: string, b: Backend) returns (result: AnalyzeResult)
    ensures result == Analyze(text, b)
  {
    result := CalculateLocalMetrics(text);
    var insight := Enrich(text, ModelName, PromptLimit, b);
    if insight.Some? {
      var data := insight.value.data;
      result := result.(sentimentLabel := Get(data, "sentiment_label"));
      result := result.(sentimentConfidence := Get(data, "sentiment_confidence"));
      result := result.(summary := Get(data, "summary"));
      result := result.(keywords := GetOr(data, "keywords", List([])));
      if "word_count" in data {
        result := result.(wordCount := data["word_count"]);
      }
      if "sentence_count" in data {
        result := result.(sentenceCount := data["sentence_count"]);
      }
      if "char_count" in data {
        result := result.(charCount := data["char_count"]);
      }
      result := result.(latencyMs := result.latencyMs + insight.value.latencyMs);
    }
  }

  /** Any failure (no credential, a raising call, an undecodable or non-object reply) returns exactly the local record. */
  lemma FailureGivesLocalMetrics(text: string, b: Backend)
    requires Enrich(text, ModelName, PromptLimit, b) == None
    ensures Analyze(text, b) == CalculateLocalMetrics(text)
    ensures Analyze(text, b).sentimentLabel == Null && Analyze(text, b).keywords == List([])
  {
  }

  /** Without a credential the remote model is never consulted. */
  lemma MissingCredentialGivesLocalMetrics(text: string, b: Backend)
    requires !b.credentialPresent
    ensures Analyze(text, b) == CalculateLocalMetrics(text)
  {
  }

  /**
    On a decoded object: the label, confidence and summary take the object's
    value or `None`, keywords its value or `[]`, each count its value only when
    the key is present, and the latency grows by the call's latency.
  */
  lemma SuccessMergesInsight(text: string, b: Backend, ins: Insight)
    requires Enrich(text, ModelName, PromptLimit, b) == Some(ins)
    ensures var r := Analyze(text, b);
      && r.sentimentLabel == (if "sentiment_label" in ins.data then ins.data["sentiment_label"] else Null)
      && r.sentimentConfidence == (if "sentiment_confidence" in ins.data then ins.data["sentiment_confidence"] else Null)
      && r.summary == (if "summary" in ins.data then ins.data["summary"] else Null)
      && r.keywords == (if "keywords" in ins.data then ins.data["keywords"] else List([]))
      && r.latencyMs == CalculateLocalMetrics(text).latencyMs + ins.latencyMs
  {
  }

  /** A count key present in the decoded object replaces the local count; an absent one leaves it as computed locally. */
  lemma SuccessCountsOverrideOnlyWhenPresent(text: string, b: Backend, ins: Insight)
    requires Enrich(text, ModelName, PromptLimit, b) == Some(ins)
    ensures var r := Analyze(text, b);
      && ("word_count" in ins.data ==> r.wordCount == ins.data["word_count"])
      && ("word_count" !in ins.data ==> r.wordCount == Int(RunCount(text)))
      && ("sentence_count" in ins.data ==> r.sentenceCount == ins.data["sentence_count"])
      && ("sentence_count" !in ins.data ==> r.sentenceCount == Int(SentenceCount(text)))
      && ("char_count" in ins.data ==> r.charCount == ins.data["char_count"])
      && ("char_count" !in ins.data ==> r.charCount == Int(|text|))
  {
  }

  /** The latency never decreases, and `sentiment_score` is never written by this variant. */
  lemma LatencyGrowsScoreStaysNone(text: string, b: Backend)
    ensures Analyze(text, b).latencyMs >= CalculateLocalMetrics(text).latencyMs
    ensures Analyze(text, b).sentimentScore == Null
  {
  }

  /**
    Texts that agree on their first 4000 characters get the same insight
    fields: nothing after the excerpt reaches the model.
  */
  lemma InsightDependsOnlyOnExcerpt(t1: string, t2: string, b: Backend)
    requires |t1| >= PromptLimit && |t2| >= PromptLimit && t1[..PromptLimit] == t2[..PromptLimit]
    ensures Analyze(t1, b).sentimentLabel == Analyze(t2, b).sentimentLabel
    ensures Analyze(t1, b).sentimentConfidence == Analyze(t2, b).sentimentConfidence
    ensures Analyze(t1, b).summary == Analyze(t2, b).summary
    ensures Analyze(t1, b).keywords == Analyze(t2, b).keywords
    ensures Analyze(t1, b).latencyMs == Analyze(t2, b).latencyMs
  {
    EnrichDependsOnlyOnExcerpt(t1, t2, ModelName, PromptLimit, b);
  }

  /**
    The unit test's reply, a fenced payload carrying only `sentiment_score`
    and `keywords`, on any text: the word count stays local, the keywords are
    taken over, and `sentiment_score` stays `None` in this variant.
  */
  lemma TestReply(text: string, b: Backend, pre: string, body: string, post: string,
                   latency: Millis, score: Value, kws: seq<string>)
    requires b.credentialPresent
    requires b.generate(ModelName, Prefix(text, PromptLimit))
          == Response(pre + JsonFence + body + Fence + post, latency)
    requires NoBacktick(pre) && NoBacktick(body) && NoBacktick(post) && !(JsonTag <= post)
    requires b.loads(Strip(pre + body + post))
          == Some(Dict(map["sentiment_score" := score, "keywords" := Strings(kws)]))
    ensures Analyze(text, b).wordCount == Int(RunCount(text))
    ensures Analyze(text, b).keywords == Strings(kws)
    ensures Analyze(text, b).sentimentScore == Null
  {
    var data := map["sentiment_score" := score, "keywords" := Strings(kws)];
    assert Enrich(text, ModelName, PromptLimit, b) == Some(Insight(data, latency)) by {
      EnrichOfFencedReply(text, ModelName, PromptLimit, b, pre, body, post, latency, data);
    }
    assert "keywords" in data && data["keywords"] == Strings(kws);
    assert "word_count" !in data;
  }

  /**
    The success scenario of the unit test, run against this variant: 7 words,
    the payload's keywords, and no score (the test's expectation of 0.85 holds
    only for the `src` variant).
  */
  lemma TestSuccessScenario(ws: seq<string>, b: Backend, pre: string, body: string, post: string,
                            latency: Millis, score: Value, kws: seq<string>)
    requires ws == ["I", "love", "coding", "with", "Python", "and", "AI!"]
    requires b.credentialPresent
    requires b.generate(ModelName, Prefix(Join(ws, ' '), PromptLimit))
          == Response(pre + JsonFence + body + Fence + post, latency)
    requires NoBacktick(pre) && NoBacktick(body) && NoBacktick(post) && !(JsonTag <= post)
    requires b.loads(Strip(pre + body + post))
          == Some(Dict(map["sentiment_score" := score, "keywords" := Strings(kws)]))
    ensures Analyze(Join(ws, ' '), b).wordCount == Int(7)
    ensures Analyze(Join(ws, ' '), b).keywords == Strings(kws)
    ensures Analyze(Join(ws, ' '), b).sentimentScore == Null
  {
    TestReply(Join(ws, ' '), b, pre, body, post, latency, score, kws);
    ExampleWords(ws);
  }
}
