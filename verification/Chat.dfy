/** The Chat Completions message that the blocking healers rewrite in place. */
module Chat {
  import opened Wrappers

  /** Message content: a plain string, or an array of parts that carries no plain text. */
  datatype Content = Plain(text: string) | Parts(parts: seq<string>)

  datatype ToolCall = ToolCall(id: string, name: string, arguments: string)

  class ChatMessage {
    var content: Option<Content>
    var reasoningContent: Option<string>
    var toolCalls: Option<seq<ToolCall>>

    constructor (content: Option<Content>, reasoningContent: Option<string>, toolCalls: Option<seq<ToolCall>>)
      ensures this.content == content && this.reasoningContent == reasoningContent && this.toolCalls == toolCalls
    {
      this.content, this.reasoningContent, this.toolCalls := content, reasoningContent, toolCalls;
    }

    /** The text when the content is a plain string, `""` otherwise. */
    function TextContent(): string
      reads this
    {
      TextOf(content)
    }
  }

  function TextOf(content: Option<Content>): string {
    if content.Some? && content.value.Plain? then content.value.text else ""
  }
}
