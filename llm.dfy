/** The outcome of one chat-completion call, as the pipelines see it. */
module Llm {

  /**
   * `NoClient`: no language-model client is configured; `Failed`: the call (or
   * reading its first choice) raised; `Replied`: the first choice's message text.
   */
  datatype LlmReply = NoClient | Failed | Replied(content: string)
}
