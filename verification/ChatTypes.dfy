/** The handler's chat formats and their conversions to and from the provider's and the cache's. */
module ChatTypes {
  import CacheTypes
  import Upstream

  datatype ChatMessage = ChatMessage(role: string, content: string, name: string)

  datatype ChatCompletionRequest = ChatCompletionRequest(
    model: string, messages: seq<ChatMessage>, temperature: real, maxTokens: int, topP: real, stream: bool,
    stop: seq<string>)

  datatype Choice = Choice(index: int, message: ChatMessage, finishReason: string)

  datatype Usage = Usage(promptTokens: int, completionTokens: int, totalTokens: int)

  datatype ChatCompletionResponse = ChatCompletionResponse(
    id: string, obj: string, created: int, model: string, choices: seq<Choice>, usage: Usage)

  // ---------- What the conversions compute ----------

  function ProviderMessage(m: ChatMessage): Upstream.ChatMessage {
    Upstream.ChatMessage(m.role, m.content, m.name)
  }

  function ProviderRequest(request: ChatCompletionRequest): Upstream.ChatCompletionRequest {
    Upstream.ChatCompletionRequest(
      request.model,
      seq(|request.messages|, i requires 0 <= i < |request.messages| => ProviderMessage(request.messages[i])),
      request.temperature, request.maxTokens, request.topP, request.stream, request.stop)
  }

  function HandlerChoice(c: Upstream.Choice): Choice {
    Choice(c.index, ChatMessage(c.message.role, c.message.content, c.message.name), c.finishReason)
  }

  function HandlerResponse(response: Upstream.ChatCompletionResponse): ChatCompletionResponse {
    ChatCompletionResponse(
      response.id, response.obj, response.created, response.model,
      seq(|response.choices|, i requires 0 <= i < |response.choices| => HandlerChoice(response.choices[i])),
      Usage(response.usage.promptTokens, response.usage.completionTokens, response.usage.totalTokens))
  }

  function CacheMessage(m: ChatMessage): CacheTypes.Message {
    CacheTypes.Message(m.role, m.content, m.name)
  }

  function CacheMessages(messages: seq<ChatMessage>): seq<CacheTypes.Message> {
    seq(|messages|, i requires 0 <= i < |messages| => CacheMessage(messages[i]))
  }

  function CacheChoice(c: Choice): CacheTypes.Choice {
    CacheTypes.Choice(c.index, CacheMessage(c.message), c.finishReason)
  }

  function CacheResponse(response: ChatCompletionResponse): CacheTypes.ChatResponse {
    CacheTypes.ChatResponse(
      response.id, response.obj, response.created, response.model,
      seq(|response.choices|, i requires 0 <= i < |response.choices| => CacheChoice(response.choices[i])),
      CacheTypes.Usage(response.usage.promptTokens, response.usage.completionTokens, response.usage.totalTokens))
  }

  function ChatChoice(c: CacheTypes.Choice): Choice {
    Choice(c.index, ChatMessage(c.message.role, c.message.content, c.message.name), c.finishReason)
  }

  function ChatResponse(response: CacheTypes.ChatResponse): ChatCompletionResponse {
    ChatCompletionResponse(
      response.id, response.obj, response.created, response.model,
      seq(|response.choices|, i requires 0 <= i < |response.choices| => ChatChoice(response.choices[i])),
      Usage(response.usage.promptTokens, response.usage.completionTokens, response.usage.totalTokens))
  }

  /** Into the cache's format, through JSON and back: the response is unaltered. */
  lemma CachedResponseRoundTrip(response: ChatCompletionResponse)
    ensures
      var decoded := CacheTypes.DecodeResponse(CacheTypes.EncodeResponse(CacheResponse(response)));
      decoded.Some? && ChatResponse(decoded.value) == response
  {
    CacheTypes.ResponseRoundTrip(CacheResponse(response));
    var back := ChatResponse(CacheResponse(response));
    assert back.choices == response.choices;
  }

  /** Requests that differ in model, messages or sampling parameters have different keys. */
  function KeyOf(request: ChatCompletionRequest): CacheTypes.CacheKey {
    CacheTypes.CacheKey(request.model, CacheMessages(request.messages), request.temperature, request.maxTokens,
                        request.topP, request.stop)
  }

  lemma SameKeySameRequest(a: ChatCompletionRequest, b: ChatCompletionRequest)
    requires KeyOf(a) == KeyOf(b)
    ensures a == b.(stream := a.stream)
  {
    assert |a.messages| == |CacheMessages(a.messages)| == |b.messages|;
    forall i | 0 <= i < |a.messages|
      ensures a.messages[i] == b.messages[i]
    {
      assert CacheMessages(a.messages)[i] == CacheMessages(b.messages)[i];
    }
  }

  /** Streaming makes no difference to the key. */
  lemma KeyIgnoresStreaming(request: ChatCompletionRequest, stream: bool)
    ensures KeyOf(request.(stream := stream)) == KeyOf(request)
  {
  }

  // ---------- The conversion loops ----------

  method ToProviderRequest(request: ChatCompletionRequest) returns (converted: Upstream.ChatCompletionRequest)
    ensures converted == ProviderRequest(request)
    ensures converted.model == request.model && converted.temperature == request.temperature
    ensures converted.maxTokens == request.maxTokens && converted.topP == request.topP
    ensures converted.stream == request.stream && converted.stop == request.stop
    ensures |converted.messages| == |request.messages|
    ensures forall i :: 0 <= i < |request.messages| ==>
      var m, c := request.messages[i], converted.messages[i];
      c.role == m.role && c.content == m.content && c.name == m.name
  {
    var messages: seq<Upstream.ChatMessage> := [];
    for i := 0 to |request.messages|
      invariant messages == ProviderRequest(request).messages[..i]
    {
      var m := request.messages[i];
      messages := messages + [Upstream.ChatMessage(m.role, m.content, m.name)];
    }
    return Upstream.ChatCompletionRequest(request.model, messages, request.temperature, request.maxTokens, request.topP,
                                          request.stream, request.stop);
  }

  method ToHandlerResponse(response: Upstream.ChatCompletionResponse) returns (converted: ChatCompletionResponse)
    ensures converted == HandlerResponse(response)
    ensures converted.id == response.id && converted.obj == response.obj && converted.created == response.created
    ensures converted.model == response.model && converted.usage.promptTokens == response.usage.promptTokens
    ensures converted.usage.completionTokens == response.usage.completionTokens
    ensures converted.usage.totalTokens == response.usage.totalTokens && |converted.choices| == |response.choices|
    ensures forall i :: 0 <= i < |response.choices| ==>
      var r, c := response.choices[i], converted.choices[i];
      && c.index == r.index && c.finishReason == r.finishReason && c.message.role == r.message.role
      && c.message.content == r.message.content && c.message.name == r.message.name
  {
    var choices: seq<Choice> := [];
    for i := 0 to |response.choices|
      invariant choices == HandlerResponse(response).choices[..i]
    {
      var c := response.choices[i];
      var message := ChatMessage(c.message.role, c.message.content, c.message.name);
      choices := choices + [Choice(c.index, message, c.finishReason)];
    }
    var usage := response.usage;
    return ChatCompletionResponse(response.id, response.obj, response.created, response.model, choices,
                                  Usage(usage.promptTokens, usage.completionTokens, usage.totalTokens));
  }

  method ToCacheMessages(messages: seq<ChatMessage>) returns (converted: seq<CacheTypes.Message>)
    ensures converted == CacheMessages(messages) && |converted| == |messages|
    ensures forall i :: 0 <= i < |messages| ==>
      var m, c := messages[i], converted[i];
      c.role == m.role && c.content == m.content && c.name == m.name
  {
    converted := [];
    for i := 0 to |messages|
      invariant converted == CacheMessages(messages)[..i]
    {
      converted := converted + [CacheTypes.Message(messages[i].role, messages[i].content, messages[i].name)];
    }
  }

  method ToCacheResponse(response: ChatCompletionResponse) returns (converted: CacheTypes.ChatResponse)
    ensures converted == CacheResponse(response)
    ensures converted.id == response.id && converted.obj == response.obj && converted.created == response.created
    ensures converted.model == response.model && converted.usage.promptTokens == response.usage.promptTokens
    ensures converted.usage.completionTokens == response.usage.completionTokens
    ensures converted.usage.totalTokens == response.usage.totalTokens && |converted.choices| == |response.choices|
    ensures forall i :: 0 <= i < |response.choices| ==>
      var r, c := response.choices[i], converted.choices[i];
      && c.index == r.index && c.finishReason == r.finishReason && c.message.role == r.message.role
      && c.message.content == r.message.content && c.message.name == r.message.name
  {
    var choices: seq<CacheTypes.Choice> := [];
    for i := 0 to |response.choices|
      invariant choices == CacheResponse(response).choices[..i]
    {
      var c := response.choices[i];
      var message := CacheTypes.Message(c.message.role, c.message.content, c.message.name);
      choices := choices + [CacheTypes.Choice(c.index, message, c.finishReason)];
    }
    var usage := response.usage;
    return CacheTypes.ChatResponse(response.id, response.obj, response.created, response.model, choices,
                                   CacheTypes.Usage(usage.promptTokens, usage.completionTokens, usage.totalTokens));
  }

  method ToChatResponse(response: CacheTypes.ChatResponse) returns (converted: ChatCompletionResponse)
    ensures converted == ChatResponse(response)
  {
    var choices: seq<Choice> := [];
    for i := 0 to |response.choices|
      invariant choices == ChatResponse(response).choices[..i]
    {
      var c := response.choices[i];
      var message := ChatMessage(c.message.role, c.message.content, c.message.name);
      choices := choices + [Choice(c.index, message, c.finishReason)];
    }
    var usage := response.usage;
    return ChatCompletionResponse(response.id, response.obj, response.created, response.model, choices,
                                  Usage(usage.promptTokens, usage.completionTokens, usage.totalTokens));
  }
}
