/** The model call in `_call_claude_api`: the request that is sent and how
    the reply is read. The HTTP exchange itself (the `curl` process, the
    temporary request file, JSON encoding and decoding) is an input: a
    function from the credential and the request to either a decoded
    response object or the message of the exception raised on the way. */
module Reply {
  import opened Strings
  import opened KeyFiles
  import opened Prompt

  const ModelId: string := "claude-sonnet-4-20250514"
  const MaxTokens: nat := 4000
  const ApiErrorPrefix: string := "Claude API error: "

  /** The JSON body that is posted: one user message holding the prompt. */
  datatype Request = Request(model: string, maxTokens: nat, role: string, content: string)

  /** One element of the response's `content` list; `text` may be absent. */
  datatype Block = Block(text: Option<string>)

  /** The decoded response object: its `content` list if the key is present,
      and `str(response_data)`, which the error message quotes. */
  datatype Envelope = Envelope(content: Option<seq<Block>>, repr: string)

  datatype CallOutcome = Raised(message: string) | Replied(envelope: Envelope)

  function MakeRequest(prompt: string): (r: Request)
    ensures r.model == ModelId && r.maxTokens == MaxTokens && r.role == "user" && r.content == prompt
  {
    Request(ModelId, MaxTokens, "user", prompt)
  }

  /** `response_data['content'][0]['text']` when `content` is present and
      non-empty; a `Claude API error` quoting the whole response otherwise.
      A first block without `text` raises `KeyError('text')`, whose message
      is `'text'`. */
  function ExtractReply(env: Envelope): Result<string>
  {
    match env.content
    case Some(blocks) =>
      if |blocks| > 0 then
        match blocks[0].text
        case Some(t) => Ok(t)
        case None => Err("'text'")
      else Err(ApiErrorPrefix + env.repr)
    case None => Err(ApiErrorPrefix + env.repr)
  }

  /** The reply succeeds exactly when `content` is present and non-empty and
      its first block has `text`; the text returned is that of the first
      block, whatever follows it. A missing or empty `content` becomes an
      error that carries the response itself. */
  lemma ExtractReplyCases(env: Envelope)
    ensures ExtractReply(env).Ok? <==>
      env.content.Some? && |env.content.value| > 0 && env.content.value[0].text.Some?
    ensures ExtractReply(env).Ok? ==> ExtractReply(env).value == env.content.value[0].text.value
    ensures (env.content.None? || env.content.value == []) ==>
      ExtractReply(env) == Err(ApiErrorPrefix + env.repr) && Contains(ExtractReply(env).error, env.repr)
  {
    if env.content.None? || env.content.value == [] {
      var msg := ApiErrorPrefix + env.repr;
      assert OccursAt(msg, env.repr, |ApiErrorPrefix|) by {
        assert msg[|ApiErrorPrefix|..|ApiErrorPrefix| + |env.repr|] == env.repr;
      }
    }
  }

  /** The whole of `_call_claude_api`: assemble the prompt, send it and read
      the reply. An exception on the way (a timeout, an unreadable or
      non-JSON body) is the call's failure. */
  function CallModel(apiKey: string, invoke: (string, Request) -> CallOutcome,
                     repoName: string, repoType: string, fileTree: string,
                     keyFiles: seq<KeyFile>, prompts: seq<InvestigationPrompt>): Result<string>
  {
    match invoke(apiKey, MakeRequest(BuildPrompt(repoName, repoType, fileTree, keyFiles, prompts)))
    case Raised(msg) => Err(msg)
    case Replied(env) => ExtractReply(env)
  }
}
