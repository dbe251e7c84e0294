/**
 * The `chat` endpoint: embed the question, retrieve documents, assemble the
 * context, and ask the chat provider with a prompt chosen by language.
 */
module Generation {
  import opened Wrappers
  import opened PyStr
  import opened Embedding
  import opened Retrieval

  /** The indentation the triple-quoted prompts carry on their later lines. */
  const Indent := "                     "

  const SpanishPrompt: string :=
    "Eres un asistente legal experto en derecho mexicano. \n"
    + Indent + "Usa el contexto proporcionado para responder preguntas de manera precisa y profesional.\n"
    + Indent + "Si el contexto no contiene información relevante, indícalo claramente.\n"
    + Indent + "Cita las fuentes cuando sea posible."

  const EnglishPrompt: string :=
    "You are a legal assistant expert in Mexican law. \n"
    + Indent + "Use the provided context to answer questions accurately and professionally.\n"
    + Indent + "If the context doesn't contain relevant information, clearly indicate this.\n"
    + Indent + "Cite sources when possible."

  /** The fixed sampling parameters of every chat request. */
  const Temperature: real := 0.7
  const MaxTokens := 2000
  const TopP: real := 0.9
  const FrequencyPenalty: real := 0.1

  /** How many documents `chat` asks the index for. */
  const TopK := 5

  const ContextHeader := "Contexto:\n"
  const QuestionHeader := "\n\nPregunta: "

  /** `system_prompt.get(language, system_prompt["es"])`: one of the two prompts. */
  function SystemPrompt(language: string): (prompt: string)
    ensures prompt == EnglishPrompt || prompt == SpanishPrompt
  {
    if language == "en" then EnglishPrompt else SpanishPrompt
  }

  /** Only `"en"` selects the English prompt; every other code, `"es"` or unknown, gets the Spanish one. */
  lemma PromptFallsBackToSpanish(language: string)
    ensures SystemPrompt(language) == EnglishPrompt <==> language == "en"
    ensures language != "en" ==> SystemPrompt(language) == SpanishPrompt
  {
    assert |EnglishPrompt| == 292 && |SpanishPrompt| == 312;
  }

  /** `model or OPENROUTER_CHAT_MODEL`: the configured model, or a non-empty override. */
  function ChatModel(requested: Option<string>, configured: string): (model: string)
    ensures model == configured || (requested.Some? && requested.value != [] && model == requested.value)
  {
    Or(requested, configured)
  }

  /** An absent or empty override selects the configured model; any other override is used as given. */
  lemma EmptyOverrideUsesDefault(requested: Option<string>, configured: string)
    ensures ChatModel(requested, configured) == configured <==>
      requested.None? || requested.value == [] || requested.value == configured
    ensures requested.Some? && requested.value != [] ==> ChatModel(requested, configured) == requested.value
  {
  }

  /** `f"Contexto:\n{context}\n\nPregunta: {query}"`: it opens with the context header and ends with the question. */
  function UserMessage(context: string, query: string): (m: string)
    ensures |m| == |ContextHeader| + |context| + |QuestionHeader| + |query|
    ensures m[..|ContextHeader|] == ContextHeader && m[|m| - |query|..] == query
  {
    ContextHeader + context + QuestionHeader + query
  }

  /** The user message is the header, the whole context, the question header and the whole question, in that order. */
  lemma UserMessageParts(context: string, query: string)
    ensures var m := UserMessage(context, query);
      && |m| == |ContextHeader| + |context| + |QuestionHeader| + |query|
      && m[..|ContextHeader|] == ContextHeader
      && m[|ContextHeader|..|ContextHeader| + |context|] == context
      && m[|ContextHeader| + |context|..|m| - |query|] == QuestionHeader
      && m[|m| - |query|..] == query
  {
    var m := UserMessage(context, query);
    var a := |ContextHeader|;
    var b := a + |context|;
    assert m[..a] == ContextHeader;
    assert m[a..b] == context;
    assert m[b..|m| - |query|] == QuestionHeader;
  }

  datatype Message = Message(role: string, content: string)

  /** The JSON body of the `chat/completions` request. */
  datatype ChatPayload = ChatPayload(model: string, messages: seq<Message>, temperature: real,
                                     maxTokens: int, topP: real, frequencyPenalty: real)

  /** The body `generate_chat_response_openrouter` posts: a system message, then a user message. */
  function Payload(query: string, context: string, language: string, requested: Option<string>, configured: string): (p: ChatPayload)
    ensures |p.messages| == 2 && p.messages[0].role == "system" && p.messages[1].role == "user"
  {
    ChatPayload(ChatModel(requested, configured),
                [Message("system", SystemPrompt(language)), Message("user", UserMessage(context, query))],
                Temperature, MaxTokens, TopP, FrequencyPenalty)
  }

  /**
   * The request carries exactly two messages, the system prompt first, and
   * the same sampling parameters whatever the question.
   */
  lemma PayloadShape(query: string, context: string, language: string, requested: Option<string>, configured: string)
    ensures var p := Payload(query, context, language, requested, configured);
      && |p.messages| == 2
      && p.messages[0].role == "system" && p.messages[1].role == "user"
      && (p.messages[0].content == SpanishPrompt || p.messages[0].content == EnglishPrompt)
      && p.messages[1].content[|ContextHeader|..|ContextHeader| + |context|] == context
      && p.temperature == 0.7 && p.maxTokens == 2000 && p.topP == 0.9 && p.frequencyPenalty == 0.1
  {
    UserMessageParts(context, query);
  }

  /**
   * `generate_chat_response_openrouter(query, context, language, model)`:
   * the answer and the model used. `provider` stands for the HTTP call and
   * the extraction of `choices[0].message.content`.
   */
  function Generate(provider: ChatPayload -> ProviderReply<string>, query: string, context: string,
                    language: string, requested: Option<string>, configured: string): (r: Result<(string, string)>)
    ensures var reply := provider(Payload(query, context, language, requested, configured));
      && (r.Success? <==> reply.Replied? && reply.code == Ok && reply.payload.Some?)
      && (r.Success? ==> r.value == (reply.payload.value, ChatModel(requested, configured)))
      && (r.Failure? ==> (r.status == GatewayTimeout <==> reply.TimedOut?))
      && (r.Failure? ==> r.status == InternalError || r.status == GatewayTimeout)
  {
    match FromProvider(provider(Payload(query, context, language, requested, configured)))
    case Success(text) => Success((text, ChatModel(requested, configured)))
    case Failure(status) => Failure(status)
  }

  /** `search_similar_documents(embedding, top_k=5)`: nothing when the index is down, otherwise what the index returns. */
  function SearchSimilar(indexConnected: bool, search: (Vector, nat) -> seq<Doc>, embedding: Vector): (docs: seq<Doc>)
    ensures !indexConnected ==> docs == []
  {
    if indexConnected then search(embedding, TopK) else []
  }

  datatype ChatRequest = ChatRequest(message: string, contextId: Option<string>, userId: string,
                                     language: string, model: Option<string>)

  datatype ChatResponse = ChatResponse(response: string, sources: seq<Doc>, contextId: string, modelUsed: string)

  /**
   * The `chat` endpoint. Every failure, a provider timeout included, is
   * caught by its `except Exception` and re-raised as 500. `freshId` is the
   * digest of the user id and the clock; `now` is the time the cache is read
   * and `cacheAnswers` whether the cache server answers then.
   */
  method Chat(g: Gateway, req: ChatRequest, indexConnected: bool, search: (Vector, nat) -> seq<Doc>,
              chatProvider: ChatPayload -> ProviderReply<string>, configuredModel: string,
              freshId: string, now: int, cacheAnswers: bool) returns (r: Result<ChatResponse>)
    modifies g
    ensures r.Failure? ==> r.status == InternalError
    ensures var e := EmbedOutcome(LinkAt(g.hasClient, cacheAnswers), old(g.cache), CacheKey(g.digest, req.message), now, g.provider(req.message));
      && g.cache == e.cache && g.calls == old(g.calls) + (if e.called then [req.message] else [])
      && (e.result.Failure? ==> r.Failure?)
      && (e.result.Success? ==>
            var docs := SearchSimilar(indexConnected, search, e.result.value);
            var answer := Generate(chatProvider, req.message, AssembleContext(docs), req.language, req.model, configuredModel);
            && (r.Success? <==> answer.Success?)
            && (r.Success? ==> r.value == ChatResponse(answer.value.0, docs, Or(req.contextId, freshId), answer.value.1)))
  {
    var queryEmbedding := g.Embed(req.message, now, cacheAnswers);
    if queryEmbedding.Failure? {
      r := Failure(InternalError);
      return;
    }
    var relevantDocs := SearchSimilar(indexConnected, search, queryEmbedding.value);
    var context := AssembleContext(relevantDocs);
    var answer := Generate(chatProvider, req.message, context, req.language, req.model, configuredModel);
    if answer.Failure? {
      r := Failure(InternalError);
      return;
    }
    var (responseText, modelUsed) := answer.value;
    var contextId := Or(req.contextId, freshId);
    r := Success(ChatResponse(responseText, relevantDocs, contextId, modelUsed));
  }

  /**
   * A provider timeout leaves `generate_chat_response_openrouter` as 504;
   * `Chat` still answers 500, since its own handler rewraps every failure.
   */
  lemma GenerateTimeoutIs504(provider: ChatPayload -> ProviderReply<string>, query: string, context: string,
                         language: string, requested: Option<string>, configured: string)
    requires provider(Payload(query, context, language, requested, configured)).TimedOut?
    ensures Generate(provider, query, context, language, requested, configured) == Failure(GatewayTimeout)
  {
  }
}
