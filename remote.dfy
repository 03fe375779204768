/**
  The remote half of `analyze_with_gemini`, shared by both analyzer variants:
  credential check, model call on a prefix of the text, fence stripping and
  JSON decoding. The SDK and the decoder are not modelled; they are the
  fields of a `Backend` value that the caller supplies.
*/
module Remote {
  import opened Options
  import opened Json
  import opened PyStr
  import opened Fences

  /**
    A latency in milliseconds: the difference of two wall-clock readings taken
    around the call. It is assumed never negative; a clock that steps back
    during the call is not modelled.
  */
  type Millis = r: real | 0.0 <= r

  /** Outcome of building the model and calling `generate_content`. */
  datatype Reply =
    | CallFailed                                    // any exception raised by the SDK
    | Response(text: string, latencyMs: Millis)     // `response.text` and the measured call time

  /**
    Everything outside the analyzer that its remote step depends on:
    whether `Config.validate` passes, what the model answers for a model name
    and a text excerpt, and what `json.loads` makes of a cleaned reply
    (`None` when it raises).
  */
  datatype Backend = Backend(
    credentialPresent: bool,
    generate: (string, string) -> Reply,
    loads: string -> Option<Value>)

  /** A decoded JSON object and the latency of the call that produced it. */
  datatype Insight = Insight(data: map<string, Value>, latencyMs: Millis)

  /**
    The body of the `try` block up to the first `data.get`: `None` when any step
    raises. A decoded value that is not an object also fails, because `.get`
    raises on it before any field of the result is written.
  */
  function Enrich(text: string, modelName: string, limit: nat, b: Backend): (r: Option<Insight>)
    ensures !b.credentialPresent ==> r == None
    ensures b.generate(modelName, Prefix(text, limit)).CallFailed? ==> r == None
    ensures r.Some? ==>
      var reply := b.generate(modelName, Prefix(text, limit));
      reply.Response? && r.value.latencyMs == reply.latencyMs
      && b.loads(StripFences(reply.text)) == Some(Dict(r.value.data))
    ensures
      var reply := b.generate(modelName, Prefix(text, limit));
      b.credentialPresent && reply.Response? && b.loads(StripFences(reply.text)).Some?
      && b.loads(StripFences(reply.text)).value.Dict?
      ==> r == Some(Insight(b.loads(StripFences(reply.text)).value.entries, reply.latencyMs))
  {
    if !b.credentialPresent then None
    else
      match b.generate(modelName, Prefix(text, limit))
      case CallFailed => None
      case Response(reply, latency) =>
        match b.loads(StripFences(reply))
        case Some(Dict(data)) => Some(Insight(data, latency))
        case _ => None
  }

  /**
    The backend only ever sees `text[:limit]`: enriching the text gives the
    same outcome as enriching its excerpt.
  */
  lemma EnrichSeesOnlyExcerpt(text: string, modelName: string, limit: nat, b: Backend)
    ensures |text| > limit ==> Enrich(text, modelName, limit, b) == Enrich(text[..limit], modelName, limit, b)
    ensures |text| <= limit ==> Prefix(text, limit) == text
  {
    if |text| > limit {
      var e := text[..limit];
      assert Prefix(text, limit) == e;
      assert Prefix(e, limit) == e;
    }
  }

  /** The remote outcome depends on the text only through its excerpt: characters past `limit` are never sent. */
  lemma EnrichDependsOnlyOnExcerpt(t1: string, t2: string, modelName: string, limit: nat, b: Backend)
    requires |t1| >= limit && |t2| >= limit && t1[..limit] == t2[..limit]
    ensures Enrich(t1, modelName, limit, b) == Enrich(t2, modelName, limit, b)
  {
    assert Prefix(t1, limit) == t1[..limit] && Prefix(t2, limit) == t2[..limit];
  }

  /**
    A reply holding one fenced JSON block that decodes to an object yields
    that object, with the call's latency.
  */
  lemma EnrichOfFencedReply(text: string, modelName: string, limit: nat, b: Backend,
                            pre: string, body: string, post: string, latency: Millis,
                            data: map<string, Value>)
    requires b.credentialPresent
    requires b.generate(modelName, Prefix(text, limit)) == Response(pre + JsonFence + body + Fence + post, latency)
    requires NoBacktick(pre) && NoBacktick(body) && NoBacktick(post) && !(JsonTag <= post)
    requires b.loads(Strip(pre + body + post)) == Some(Dict(data))
    ensures Enrich(text, modelName, limit, b) == Some(Insight(data, latency))
  {
    StripFencesOfFencedBlock(pre, body, post);
  }
}
