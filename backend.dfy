/**
 * The backend invocation (`generate_gpt4_response` in main.py): the message
 * list is the system prompt, then the stored conversation history, then the
 * user's current text. The backend itself is an oracle from message lists to
 * replies; a request failure becomes a fixed fallback text, while a response
 * without `choices[0].message.content` raises out of the function.
 */
module Backend {
  import opened ConversationStore
  import Validation

  /** The reply used when the request fails. */
  const FallbackText := "Sorry, I couldn't understand that."

  datatype BackendReply =
    | Completed(content: string)   // choices[0].message.content
    | RequestFailed                // a requests.RequestException
    | MalformedResponse            // the response lacks the content field

  /** The function's outcome: a reply text, or an exception it does not catch. */
  datatype Generation = Generated(text: string) | Uncaught

  /** The message list: [system prompt] + history + [current user text]. */
  function Prompt(sysPrompt: string, history: seq<ChatMessage>, text: string): (m: seq<ChatMessage>)
    ensures |m| == |history| + 2
    ensures m[0] == ChatMessage("system", sysPrompt) && m[|m| - 1] == ChatMessage("user", text)
    ensures m[1..|m| - 1] == history
  {
    [ChatMessage("system", sysPrompt)] + history + [ChatMessage("user", text)]
  }

  /** What the function makes of the backend's reply. */
  function Interpret(reply: BackendReply): (g: Generation)
    ensures g == Uncaught <==> reply == MalformedResponse
    ensures reply == RequestFailed ==> g == Generated(FallbackText)
  {
    match reply
    case Completed(content) => Generated(Validation.Strip(content))
    case RequestFailed => Generated(FallbackText)
    case MalformedResponse => Uncaught
  }

  /**
   * Reads the history (a store fault gives none), puts the system prompt in
   * front and the current text at the end, and sends that list to the backend.
   * A completed reply is stripped, a failed request falls back to
   * FallbackText, a malformed response escapes.
   */
  method GenerateGpt4Response(
    store: LogStore, prompt: string, userId: string, sysPrompt: string,
    historyFault: bool, backend: seq<ChatMessage> -> BackendReply)
    returns (g: Generation, sent: seq<ChatMessage>)
    ensures sent == Prompt(sysPrompt, if historyFault then [] else History(store.rows, userId), prompt)
    ensures backend(sent).Completed? ==> g == Generated(Validation.Strip(backend(sent).content))
    ensures backend(sent) == RequestFailed ==> g == Generated(FallbackText)
    ensures backend(sent) == MalformedResponse ==> g == Uncaught
  {
    var conversation := store.GetConversationHistory(userId, historyFault);
    conversation := [ChatMessage("system", sysPrompt)] + conversation;
    conversation := conversation + [ChatMessage("user", prompt)];
    sent := conversation;
    match backend(conversation)
    case Completed(content) =>
      g := Generated(Validation.Strip(content));
    case RequestFailed =>
      g := Generated(FallbackText);
    case MalformedResponse =>
      g := Uncaught;
  }
}
