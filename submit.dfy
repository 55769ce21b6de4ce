/**
 * The request `submit_llm` sends upstream, built from the client's JSON and
 * the `llm_api` section of the configuration, and the choice between a 400
 * answer, a streamed answer and a blocking one.
 */
module Submit {
  import opened Wrappers
  import opened Json

  /** The keys read from the client's JSON, in the order the dict literal reads them. */
  const RequiredKeys: seq<string> := ["system_message", "prompt", "temperature", "top_p", "top_k", "max_tokens"]

  /** The keys of the upstream request. */
  const RequestKeys: set<string> := {"model", "messages", "temperature", "top_p", "top_k", "max_tokens", "stream"}

  /** The first of `keys` that `d` lacks: the `KeyError` the dict literal raises. */
  function FirstMissing(d: Object, keys: seq<string>): (r: Option<string>)
    ensures r.None? <==> (forall i :: 0 <= i < |keys| ==> keys[i] in d)
    ensures r.Some? ==> exists i :: 0 <= i < |keys| && keys[i] == r.value && r.value !in d
                                    && (forall j :: 0 <= j < i ==> keys[j] in d)
    decreases |keys|
  {
    if keys == [] then None
    else if keys[0] !in d then Some(keys[0])
    else
      var r := FirstMissing(d, keys[1..]);
      assert forall i :: 1 <= i < |keys| ==> keys[i] == keys[1..][i - 1];
      if r.Some? then
        assert exists i :: 1 <= i < |keys| && keys[i] == r.value && r.value !in d
                           && (forall j :: 0 <= j < i ==> keys[j] in d) by {
          var i :| 0 <= i < |keys[1..]| && keys[1..][i] == r.value && r.value !in d
                   && (forall j :: 0 <= j < i ==> keys[1..][j] in d);
          assert forall j :: 1 <= j < i + 1 ==> keys[j] == keys[1..][j - 1];
        }
        r
      else r
  }

  /** A chat message of the request. */
  function ChatMessage(role: string, content: Json): Json
  {
    JObject(map["role" := JString(role), "content" := content])
  }

  /**
   * `llm_request_data`: the model from the configuration, then the system and
   * user messages, the four sampling settings and `stream` (true when absent),
   * all from the client.  A missing key fails with that key; the model is
   * read first.
   */
  function BuildRequest(llmApi: Object, data: Object): (r: Result<Object, string>)
    ensures r.Failure? <==> "model" !in llmApi || exists k :: k in RequiredKeys && k !in data
    ensures r.Success? ==> r.value.Keys == RequestKeys
  {
    if "model" !in llmApi then Failure("model")
    else
      match FirstMissing(data, RequiredKeys)
      case Some(k) => Failure(k)
      case None =>
        Success(map[
          "model" := llmApi["model"],
          "messages" := JArray([ChatMessage("system", data["system_message"]), ChatMessage("user", data["prompt"])]),
          "temperature" := data["temperature"],
          "top_p" := data["top_p"],
          "top_k" := data["top_k"],
          "max_tokens" := data["max_tokens"],
          "stream" := Get(data, "stream", JBool(true))])
  }

  /** What `submit_llm` answers with. */
  datatype Reply =
    | BadRequest(status: int, error: string)   // `jsonify({"error": ...}), 400`
    | Streamed(request: Object)                // `Response(stream_llm_response(request))`
    | Blocking(request: Object)                // `get_llm_response(request)`

  /** `str(KeyError(k))` quotes the key. */
  function MissingKeyMessage(k: string): string
  {
    "Missing key in LLM request data: '" + k + "'"
  }

  /** The reply: 400 for a missing key (nothing is sent upstream), otherwise by `data.get('stream', True)`. */
  function SubmitLlm(llmApi: Object, data: Object): (reply: Reply)
    ensures reply.BadRequest? <==> BuildRequest(llmApi, data).Failure?
    ensures reply.BadRequest? ==> reply.status == 400
  {
    match BuildRequest(llmApi, data)
    case Failure(k) => BadRequest(400, MissingKeyMessage(k))
    case Success(req) =>
      if Truthy(Get(data, "stream", JBool(true))) then Streamed(req) else Blocking(req)
  }

  // ----- the request's fields against the client's data -----

  /**
   * The request carries the caller's values unchanged: the system message and
   * the prompt, as the first and second message with roles `system` and
   * `user`, and the four settings under the same keys.
   */
  lemma RequestCarriesData(llmApi: Object, data: Object)
    requires BuildRequest(llmApi, data).Success?
    ensures var req := BuildRequest(llmApi, data).value;
            && req["model"] == llmApi["model"]
            && req["messages"].JArray? && |req["messages"].items| == 2
            && req["messages"].items[0].JObject? && req["messages"].items[1].JObject?
            && req["messages"].items[0].fields == map["role" := JString("system"), "content" := data["system_message"]]
            && req["messages"].items[1].fields == map["role" := JString("user"), "content" := data["prompt"]]
            && (forall k :: k in RequiredKeys[2..] ==> req[k] == data[k])
  {
    assert forall i :: 0 <= i < |RequiredKeys| ==> RequiredKeys[i] in data;
    assert RequiredKeys[2..] == ["temperature", "top_p", "top_k", "max_tokens"];
  }

  /** `stream` is the client's value when given and true otherwise; the reply streams exactly when it is truthy. */
  lemma StreamDefaultsToTrue(llmApi: Object, data: Object)
    requires BuildRequest(llmApi, data).Success?
    ensures var req := BuildRequest(llmApi, data).value;
            && ("stream" !in data ==> req["stream"] == JBool(true))
            && ("stream" in data ==> req["stream"] == data["stream"])
            && (SubmitLlm(llmApi, data).Streamed? <==> Truthy(req["stream"]))
            && (SubmitLlm(llmApi, data).Streamed? || SubmitLlm(llmApi, data).Blocking?)
            && SubmitLlm(llmApi, data).request == req
  {
    assert forall i :: 0 <= i < |RequiredKeys| ==> RequiredKeys[i] in data;
  }

  /** The model is read first: without it the 400 names `'model'`, whatever the client sent. */
  lemma ModelMissingReported(llmApi: Object, data: Object)
    requires "model" !in llmApi
    ensures SubmitLlm(llmApi, data) == BadRequest(400, MissingKeyMessage("model"))
  {
  }

  /**
   * With the model configured, a missing client key is reported by name, and
   * it is the first missing one in the order the request reads them.
   */
  lemma MissingKeyReported(llmApi: Object, data: Object, i: nat)
    requires "model" in llmApi
    requires i < |RequiredKeys| && RequiredKeys[i] !in data
    requires forall j :: 0 <= j < i ==> RequiredKeys[j] in data
    ensures SubmitLlm(llmApi, data) == BadRequest(400, MissingKeyMessage(RequiredKeys[i]))
  {
    var r := FirstMissing(data, RequiredKeys);
    assert r.Some?;
    var m :| 0 <= m < |RequiredKeys| && RequiredKeys[m] == r.value && r.value !in data
             && (forall j :: 0 <= j < m ==> RequiredKeys[j] in data);
  }
}
