/** Provider-independent chat messages and replies (backend/app/llm/contracts). */
module Llm {
  import opened Common

  datatype Role = System | User | Assistant | Tool

  datatype ToolCall = ToolCall(id: string, name: string, arguments: string)

  datatype LLMMessage = LLMMessage(
    role: Role,
    content: string,
    name: Option<string>,
    toolCallId: Option<string>,
    toolCalls: seq<ToolCall>,
    data: Option<string>)

  /** A message with the optional fields at their defaults. */
  function PlainMessage(role: Role, content: string): LLMMessage {
    LLMMessage(role, content, None, None, [], None)
  }

  datatype LLMUsage = LLMUsage(
    inputTokens: Option<nat>, outputTokens: Option<nat>, totalTokens: Option<nat>)

  /** A JSON scalar or document kept in message metadata; `Null` is the JSON null. */
  datatype Json = Null | Text(text: string) | Number(number: int)

  type Metadata = map<string, Json>

  datatype LLMResponse = LLMResponse(
    content: string,
    model: string,
    provider: string,
    finishReason: Option<string>,
    usage: Option<LLMUsage>,
    providerResponseId: Option<string>,
    toolCalls: seq<ToolCall>,
    metadata: Metadata)

  datatype LLMChunk = LLMChunk(
    content: string,
    model: string,
    provider: string,
    finishReason: Option<string>,
    providerResponseId: Option<string>,
    usage: Option<LLMUsage>,
    metadata: Metadata)
}
