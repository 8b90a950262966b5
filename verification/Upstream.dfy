/** The upstream request, response and error formats, and how the registry reads an error. */
module Upstream {

  datatype ChatMessage = ChatMessage(role: string, content: string, name: string)

  datatype ChatCompletionRequest = ChatCompletionRequest(
    model: string, messages: seq<ChatMessage>, temperature: real, maxTokens: int, topP: real, stream: bool,
    stop: seq<string>)

  datatype Choice = Choice(index: int, message: ChatMessage, finishReason: string)

  datatype Usage = Usage(promptTokens: int, completionTokens: int, totalTokens: int)

  datatype ChatCompletionResponse = ChatCompletionResponse(
    id: string, obj: string, created: int, model: string, choices: seq<Choice>, usage: Usage, provider: string)

  /** `hasInner` says whether the error wraps a transport error. */
  datatype UpstreamError = UpstreamError(
    provider: string, model: string, statusCode: int, message: string, hasInner: bool)

  datatype Result = Ok(response: ChatCompletionResponse) | Fail(error: UpstreamError)

  const STATUS_BAD_REQUEST := 400
  const STATUS_SERVICE_UNAVAILABLE := 503

  /** 429 is defined in section 4 of RFC 6585, the others in section 15.6 of RFC 9110. */
  predicate ShouldTripCircuit(error: UpstreamError) {
    error.hasInner || error.statusCode in {429, 500, 502, 503, 504}
  }

  predicate ShouldFallback(error: UpstreamError) {
    error.statusCode != STATUS_BAD_REQUEST
  }
}
