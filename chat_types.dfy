/**
 * The frontend's records: chat messages in the OpenAI shape, their content blocks,
 * and the `ILooplitState` a lineage's history is made of.
 */
module ChatTypes {
  import opened Wrappers

  /** `image_url` is either the URL itself or an object holding it. */
  datatype ImageUrl = UrlString(url: string) | UrlObject(url: string)

  /** One block of a list content: `{type: 'text', text}` or `{type: 'image_url', image_url}`. */
  datatype Part = TextPart(text: string) | ImagePart(imageUrl: ImageUrl)

  /** `IMessageContent | undefined`. */
  datatype Content = NoContent | TextContent(text: string) | Parts(parts: seq<Part>)

  /** An `IToolCall`, by its id and function name (its arguments are displayed only). */
  datatype ToolCallRef = ToolCallRef(id: string, name: string)

  /** `IMessage`. */
  datatype UiMessage = UiMessage(
    role: string,
    content: Content,
    name: Option<string>,
    toolCalls: Option<seq<ToolCallRef>>,
    toolCallId: Option<string>)

  /** `ILooplitState`; `tools` entries are opaque JSON, and may be missing as the
      backend sends `null` for them. */
  datatype LooplitState = LooplitState(id: string, messages: seq<UiMessage>, tools: Option<seq<string>>)

  /** JavaScript's `arr.slice(0, n)`: the first `n` elements, or all when there are fewer. */
  function Take<T>(s: seq<T>, n: nat): (r: seq<T>)
    ensures |r| == (if n <= |s| then n else |s|) && r == s[..|r|]
  {
    if n <= |s| then s[..n] else s
  }

  /** `arr.slice(n)`: what follows the first `n` elements, or nothing. */
  function Skip<T>(s: seq<T>, n: nat): (r: seq<T>)
    ensures |r| == (if n <= |s| then |s| - n else 0) && r == s[|s| - |r|..]
  {
    if n <= |s| then s[n..] else []
  }
}
