/** The chat assistant's session controller: the conversation, the input box, the
    loading flag, the one-shot history hydration and the clear-history dialog. Each
    asynchronous handler is a pair of methods, one for what happens before the request
    is sent and one for what happens when its response (or failure) arrives. */
module ChatSession {
  import opened Wrappers
  import opened JsText

  /** The ticket object the backend attaches to a reply; the controller only passes it on. */
  datatype TicketData = TicketData(payload: string)

  /** A message of the conversation; `isTicket` and `ticket` are set only on a reply
      that generated a ticket. */
  datatype Message = Message(role: string, content: string, isTicket: bool, ticket: Option<TicketData>)

  const UserRole := "user"
  const AssistantRole := "assistant"

  /** Shown when the backend answers `success: false` without an answer of its own. */
  const ErrorText := "\U{00E2}\U{0152} Sorry, I encountered an error. Please try again."
  /** Shown when the request itself fails. */
  const ConnectionText := "\U{00E2}\U{0152} Failed to connect to the server. Please check your connection."
  /** The conversation after a successful clear. */
  const ClearedText := "\U{00E2}\U{0153}\U{2026} Chat history cleared! How can I help you today?"

  /** A plain message with a role and a content only. */
  function Plain(role: string, content: string): Message {
    Message(role, content, false, None)
  }

  /** The answer of the conversation endpoint: a success with its answer and the optional
      generated ticket, an application failure with an optional answer, or a request that
      threw (network error, unparsable body). */
  datatype ChatResponse =
    | ChatOk(answer: string, ticketGenerated: bool, ticket: Option<TicketData>)
    | ChatAppFail(failAnswer: Option<string>)
    | ChatTransport

  /** The answer of the history endpoint: a body with its success flag and optional
      history, or a request that threw. */
  datatype HistoryResponse =
    | HistoryReply(success: bool, history: Option<seq<Message>>)
    | HistoryFailed

  /** The answer of the history-deletion endpoint. */
  datatype DeleteResponse =
    | DeleteReply(deleted: bool)
    | DeleteFailed

  /** `user?.id` is truthy. */
  predicate HasId(userId: Option<string>) {
    userId.Some? && userId.value != ""
  }

  /** `answer || fallback` on an optional string: absent and empty are falsy. */
  function OrElse(answer: Option<string>, fallback: string): (r: string)
    ensures r != "" <==> (fallback != "" || (answer.Some? && answer.value != ""))
    ensures answer.Some? && answer.value != "" ==> r == answer.value
    ensures !(answer.Some? && answer.value != "") ==> r == fallback
  {
    if answer.Some? && answer.value != "" then answer.value else fallback
  }

  /** The assistant message a finished request appends. */
  function Reply(resp: ChatResponse): (m: Message)
    ensures m.role == AssistantRole
    ensures m.isTicket <==> resp.ChatOk? && resp.ticketGenerated
    ensures m.ticket.Some? ==> m.isTicket && m.ticket == resp.ticket
    ensures m.isTicket ==> m.ticket == resp.ticket
    ensures resp.ChatOk? ==> m.content == resp.answer
    ensures !resp.ChatOk? ==> m.content != ""
    ensures resp.ChatAppFail? ==> m.content == OrElse(resp.failAnswer, ErrorText)
    ensures resp.ChatTransport? ==> m.content == ConnectionText
  {
    match resp
    case ChatOk(answer, generated, ticket) =>
      if generated then Message(AssistantRole, answer, true, ticket) else Plain(AssistantRole, answer)
    case ChatAppFail(answer) => Plain(AssistantRole, OrElse(answer, ErrorText))
    case ChatTransport => Plain(AssistantRole, ConnectionText)
  }

  /** The guard of `handleSubmit`: the input is not blank after trimming and no reply
      is pending. */
  function Accepts(input: string, isLoading: bool): (ok: bool)
    ensures ok <==> !AllSpace(input) && !isLoading
  {
    TrimSpec(input);
    Trim(input) != "" && !isLoading
  }

  /** The history entries reduced to their role and content. */
  function Stripped(history: seq<Message>): seq<Message> {
    seq(|history|, i requires 0 <= i < |history| => Plain(history[i].role, history[i].content))
  }

  /** The messages a history response adds to the conversation. */
  function Hydrated(mounted: bool, resp: HistoryResponse): (added: seq<Message>)
    ensures added != [] <==>
      mounted && resp.HistoryReply? && resp.success && resp.history.Some? && |resp.history.value| > 0
    ensures added != [] ==> var h := resp.history.value;
      && |added| == |h|
      && forall i :: 0 <= i < |h| ==>
           && added[i].role == h[i].role && added[i].content == h[i].content
           && !added[i].isTicket && added[i].ticket.None?
  {
    if mounted && resp.HistoryReply? && resp.success && resp.history.Some? && |resp.history.value| > 0
    then Stripped(resp.history.value)
    else []
  }

  class Controller {
    var messages: seq<Message>
    var input: string
    var isLoading: bool
    var historyLoaded: bool
    var showClearModal: bool
    /** False once the component has unmounted; only hydration looks at it. */
    var mounted: bool
    /** How many history requests this controller has issued. */
    ghost var historyFetches: nat

    /** The conversation is never empty, and the latch counts the history requests:
        read at its current value, it lets at most one through. */
    ghost predicate Valid()
      reads this
    {
      && |messages| >= 1
      && historyFetches == (if historyLoaded then 1 else 0)
    }

    /** A fresh controller: the welcome message, an empty input, nothing pending. */
    constructor (welcome: string)
      ensures Valid()
      ensures messages == [Plain(AssistantRole, welcome)]
      ensures input == "" && !isLoading && !historyLoaded && !showClearModal && mounted
    {
      messages := [Plain(AssistantRole, welcome)];
      input := "";
      isLoading := false;
      historyLoaded := false;
      showClearModal := false;
      mounted := true;
      historyFetches := 0;
    }

    /** `loadChatHistory` up to the request: with a user id and the latch clear, sets
        the latch and asks for that user's history; otherwise does nothing. */
    method StartHistoryLoad(userId: Option<string>) returns (request: Option<string>)
      requires Valid()
      modifies this
      ensures Valid() && historyFetches <= 1
      ensures request.Some? <==> HasId(userId) && !old(historyLoaded)
      ensures request.Some? ==> request == userId
      ensures historyLoaded == (old(historyLoaded) || HasId(userId))
      ensures messages == old(messages) && input == old(input) && isLoading == old(isLoading)
      ensures showClearModal == old(showClearModal) && mounted == old(mounted)
    {
      if !HasId(userId) || historyLoaded {
        return None;
      }
      historyLoaded := true;
      historyFetches := historyFetches + 1;
      request := userId;
    }

    /** `loadChatHistory` after the response: appends the history, reduced to role and
        content, only while mounted and on a successful non-empty history. */
    method CompleteHistoryLoad(resp: HistoryResponse)
      requires Valid()
      modifies this`messages
      ensures Valid()
      ensures messages == old(messages) + Hydrated(mounted, resp)
    {
      if mounted && resp.HistoryReply? && resp.success && resp.history.Some? && |resp.history.value| > 0 {
        var historic := Stripped(resp.history.value);
        messages := messages + historic;
      }
    }

    /** The cleanup of the hydration effect. */
    method Unmount()
      requires Valid()
      modifies this`mounted
      ensures Valid() && !mounted
    {
      mounted := false;
    }

    /** The input box's `onChange`. */
    method ChangeInput(text: string)
      requires Valid()
      modifies this`input
      ensures Valid() && input == text
    {
      input := text;
    }

    /** `handleQuickQuestion`: fills the input with the question; nothing is sent. */
    method QuickQuestion(question: string)
      requires Valid()
      modifies this`input
      ensures Valid() && input == question
    {
      input := question;
    }

    /** `handleSubmit` up to the request: unless the guard refuses, appends the user
        message with the untrimmed input, clears the input, marks a reply as pending
        and returns the conversation sent to the backend. */
    method StartSubmit() returns (request: Option<seq<Message>>)
      requires Valid()
      modifies this`messages, this`input, this`isLoading
      ensures Valid()
      ensures request.Some? <==> Accepts(old(input), old(isLoading))
      ensures request.None? ==>
        messages == old(messages) && input == old(input) && isLoading == old(isLoading)
      ensures request.Some? ==>
        && messages == old(messages) + [Plain(UserRole, old(input))]
        && request.value == messages
        && input == "" && isLoading
    {
      if Trim(input) == "" || isLoading {
        return None;
      }
      var userMessage := Plain(UserRole, input);
      messages := messages + [userMessage];
      input := "";
      isLoading := true;
      request := Some(messages);
    }

    /** `handleSubmit` after the response: appends exactly one assistant message and
        clears the loading flag, whatever the outcome and whether or not still mounted. */
    method CompleteSubmit(resp: ChatResponse)
      requires Valid()
      modifies this`messages, this`isLoading
      ensures Valid()
      ensures messages == old(messages) + [Reply(resp)]
      ensures !isLoading
    {
      messages := messages + [Reply(resp)];
      isLoading := false;
    }

    /** A whole `handleSubmit` with no other event in between: an accepted submission
        adds the user's message and then one reply. */
    method Submit(resp: ChatResponse) returns (request: Option<seq<Message>>)
      requires Valid()
      modifies this`messages, this`input, this`isLoading
      ensures Valid()
      ensures request.Some? <==> Accepts(old(input), old(isLoading))
      ensures request.None? ==>
        messages == old(messages) && input == old(input) && isLoading == old(isLoading)
      ensures request.Some? ==>
        && request.value == old(messages) + [Plain(UserRole, old(input))]
        && messages == request.value + [Reply(resp)]
        && input == "" && !isLoading
    {
      request := StartSubmit();
      if request.Some? {
        CompleteSubmit(resp);
      }
    }

    /** The trash button: opens the confirmation dialog. */
    method OpenClearModal()
      requires Valid()
      modifies this`showClearModal
      ensures Valid() && showClearModal
    {
      showClearModal := true;
    }

    /** The dialog's overlay and cancel button: close it. */
    method CloseClearModal()
      requires Valid()
      modifies this`showClearModal
      ensures Valid() && !showClearModal
    {
      showClearModal := false;
    }

    /** `handleClearHistory` up to the request: without a user id nothing happens;
        otherwise the dialog closes and the deletion is requested. */
    method StartClear(userId: Option<string>) returns (request: Option<string>)
      requires Valid()
      modifies this`showClearModal
      ensures Valid()
      ensures request.Some? <==> HasId(userId)
      ensures request.Some? ==> request == userId && !showClearModal
      ensures request.None? ==> showClearModal == old(showClearModal)
    {
      if !HasId(userId) {
        return None;
      }
      showClearModal := false;
      request := userId;
    }

    /** `handleClearHistory` after the response: only a successful deletion replaces the
        conversation with the single confirmation message. */
    method CompleteClear(resp: DeleteResponse)
      requires Valid()
      modifies this`messages
      ensures Valid()
      ensures resp.DeleteReply? && resp.deleted ==> messages == [Plain(AssistantRole, ClearedText)]
      ensures !(resp.DeleteReply? && resp.deleted) ==> messages == old(messages)
    {
      if resp.DeleteReply? && resp.deleted {
        messages := [Plain(AssistantRole, ClearedText)];
      }
    }
  }
}
