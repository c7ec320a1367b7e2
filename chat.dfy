/** The chat widget: its message log (restored from and saved to storage), the send
    handlers around the `/chat` request, and the open/suggestion toggles. A send is split
    at the request: `SendText` runs up to the `await`, `Complete` runs when the request
    settles with the outcome as an input; one request is in flight at a time. */
module Chat {
  import opened Wrappers
  import opened Strings

  datatype Role = User | Assistant

  datatype Message = Message(role: Role, content: string)

  const StorageKey := "strayland_chat_v1"
  const Greeting := "嗨～我是浪浪領地的小管家，有什麼想詢問的嗎？"
  const ReplyFallback := "（小管家暫時忙碌中，再試一次 > <）"
  const LoginNotice := "請先登入後再使用客服喔！"
  const BusyNotice := "伺服器忙碌中，稍後再試一次～"

  const Suggestions: seq<string> := [
    "請問這個網頁主要是要幹嘛？",
    "請問台北市哪裡可以領養動物？",
    "我撿到一隻流浪小狗，我可以帶她去哪裡檢查？",
    "我撿到一隻流浪小狗，我可以帶她去哪個收容所呢？",
    "哪裡有可以領養寵物的咖啡廳呢？",
    "怎麼和寵物增加感情？",
    "我想領養寵物，請問我需要具備什麼能力嗎？"
  ]

  /** The stored log: nothing (or empty text), a saved log, or text that does not parse. */
  datatype Saved = NoLog | Log(messages: seq<Message>) | Unreadable

  /** How the request settles: a reply (`None` when the body has no truthy `reply`), or an
      error with the HTTP status when there was a response. */
  datatype Outcome = Replied(reply: Option<string>) | Failed(status: Option<int>)

  /** The widget's state. `pending` is the log the in-flight request was sent with (the
      `newMessages` its continuation appends to); `saved` is the stored log. */
  datatype ChatState = ChatState(
    open: bool,
    messages: seq<Message>,
    input: string,
    loading: bool,
    errorMsg: string,
    showSuggestions: bool,
    pending: seq<Message>,
    saved: Saved)

  /** The lazily initialised log: the stored one when it parses, else the greeting. */
  function InitialMessages(saved: Saved): seq<Message>
  {
    if saved.Log? then saved.messages else [Message(Assistant, Greeting)]
  }

  /** The state on mount, after the save effect has written the log back. */
  function Initial(saved: Saved): ChatState
  {
    ChatState(false, InitialMessages(saved), "", false, "", false, [], Log(InitialMessages(saved)))
  }

  /** The stored log mirrors the shown one, and while a request is in flight nothing but
      its continuation changes the log. */
  predicate Valid(s: ChatState)
  {
    s.saved == Log(s.messages) && (s.loading ==> s.messages == s.pending)
  }

  /** `handleToggle` */
  function Toggled(s: ChatState): ChatState
  {
    s.(open := !s.open, showSuggestions := false)
  }

  /** `handleSendText(text)` up to the request. */
  function SentText(s: ChatState, text: Option<string>): ChatState
  {
    var content := Trim(if text.Some? then text.value else "");
    if content == "" || s.loading then s
    else
      var newMessages := s.messages + [Message(User, content)];
      s.(errorMsg := "", messages := newMessages, loading := true, pending := newMessages, saved := Log(newMessages))
  }

  /** The text of the assistant's answer: the reply, or the fallback when it is empty. */
  function ReplyText(reply: Option<string>): string
  {
    if reply.Some? && reply.value != "" then reply.value else ReplyFallback
  }

  /** The rest of `handleSendText` once the request settles. */
  function Completed(s: ChatState, outcome: Outcome): ChatState
  {
    match outcome
    case Replied(reply) =>
      var log := s.pending + [Message(Assistant, ReplyText(reply))];
      s.(messages := log, saved := Log(log), loading := false)
    case Failed(status) =>
      s.(errorMsg := if status == Some(401) then LoginNotice else BusyNotice, loading := false)
  }

  /** `handleSend` up to the request. */
  function Sent(s: ChatState): ChatState
  {
    if Trim(s.input) == "" || s.loading then s
    else SentText(s.(input := ""), Some(Trim(s.input)))
  }

  /** `handlePickSuggestion(text)` up to the request. */
  function Picked(s: ChatState, text: string): ChatState
  {
    SentText(s.(showSuggestions := false, input := ""), Some(text))
  }

  /** The send button is enabled. */
  predicate SendEnabled(s: ChatState)
  {
    !(s.loading || Trim(s.input) == "")
  }

  /** Without a stored log the widget opens with exactly the greeting; a stored log is
      shown as stored. */
  lemma InitialSpec(saved: Saved)
    ensures Valid(Initial(saved))
    ensures !saved.Log? ==> Initial(saved).messages == [Message(Assistant, Greeting)]
    ensures saved.Log? ==> Initial(saved).messages == saved.messages
    ensures !Initial(saved).loading && !Initial(saved).open
  {
  }

  /** Blank text, or a send while a request is in flight, changes nothing; otherwise the
      trimmed text is appended as the user's message, the error is cleared and the widget
      waits for the reply. */
  lemma SentTextSpec(s: ChatState, text: Option<string>)
    ensures var content := Trim(if text.Some? then text.value else "");
            content == "" || s.loading ==> SentText(s, text) == s
    ensures var content := Trim(if text.Some? then text.value else "");
            content != "" && !s.loading ==>
              && SentText(s, text).messages == s.messages + [Message(User, content)]
              && SentText(s, text).loading
              && SentText(s, text).errorMsg == ""
              && SentText(s, text).input == s.input && SentText(s, text).open == s.open
    ensures Valid(s) ==> Valid(SentText(s, text))
  {
  }

  /** A reply appends exactly one assistant message (the fallback for an empty reply) to the
      log sent; a failure keeps the user's message without an answer and reports the
      login notice for status 401 and the busy notice otherwise; either way the widget
      stops loading. */
  lemma CompletedSpec(s: ChatState, outcome: Outcome)
    requires Valid(s) && s.loading
    ensures !Completed(s, outcome).loading
    ensures Valid(Completed(s, outcome))
    ensures outcome.Replied? ==>
              Completed(s, outcome).messages == s.messages + [Message(Assistant, ReplyText(outcome.reply))]
    ensures outcome == Replied(None) || outcome == Replied(Some("")) ==>
              Completed(s, outcome).messages[|s.messages|].content == ReplyFallback
    ensures outcome.Failed? ==> Completed(s, outcome).messages == s.messages
    ensures outcome.Failed? ==>
              Completed(s, outcome).errorMsg == (if outcome.status == Some(401) then LoginNotice else BusyNotice)
  {
  }

  /** A full round from an idle widget: the log grows by the user's message and, on a
      reply, by one answer. */
  lemma RoundTrip(s: ChatState, text: string, outcome: Outcome)
    requires Valid(s) && !s.loading && Trim(text) != ""
    ensures var t := Completed(SentText(s, Some(text)), outcome);
            && Valid(t) && !t.loading
            && t.messages == s.messages + [Message(User, Trim(text))]
                                        + (if outcome.Replied? then [Message(Assistant, ReplyText(outcome.reply))] else [])
  {
  }

  /** The button sends exactly when it is enabled; sending clears the input and behaves as
      sending the trimmed input (trimming it again changes nothing). */
  lemma SentSpec(s: ChatState)
    ensures Sent(s) != s ==> SendEnabled(s)
    ensures SendEnabled(s) ==>
              && Sent(s).input == ""
              && Sent(s).loading
              && Sent(s).messages == s.messages + [Message(User, Trim(s.input))]
    ensures Valid(s) ==> Valid(Sent(s))
  {
    TrimIdempotent(s.input);
  }

  /** Picking a suggestion hides the list, clears the input, and sends the suggestion. */
  lemma PickedSpec(s: ChatState, text: string)
    ensures !Picked(s, text).showSuggestions && Picked(s, text).input == ""
    ensures Picked(s, text).messages ==
              if Trim(text) == "" || s.loading then s.messages else s.messages + [Message(User, Trim(text))]
    ensures Valid(s) ==> Valid(Picked(s, text))
  {
  }

  /** Toggling flips `open`, always hides the suggestions, and toggling twice restores
      `open`. */
  lemma ToggledSpec(s: ChatState)
    ensures Toggled(s).open == !s.open && !Toggled(s).showSuggestions
    ensures Toggled(Toggled(s)).open == s.open
    ensures Toggled(s).messages == s.messages && Toggled(s).loading == s.loading
    ensures Valid(s) ==> Valid(Toggled(s))
  {
  }

  /** The widget's component state. */
  class ChatWidget {
    var open: bool
    var messages: seq<Message>
    var input: string
    var loading: bool
    var errorMsg: string
    var showSuggestions: bool
    var pending: seq<Message>
    var saved: Saved

    function State(): ChatState
      reads this
    {
      ChatState(open, messages, input, loading, errorMsg, showSuggestions, pending, saved)
    }

    /** Mounting with the stored log. */
    constructor(stored: Saved)
      ensures State() == Initial(stored)
    {
      open := false;
      messages := InitialMessages(stored);
      input := "";
      loading := false;
      errorMsg := "";
      showSuggestions := false;
      pending := [];
      saved := Log(messages);
    }

    /** Typing in the input box. */
    method SetInput(text: string)
      modifies this
      ensures State() == old(State()).(input := text)
    {
      input := text;
    }

    /** The suggestions button. */
    method ToggleSuggestions()
      modifies this
      ensures State() == old(State()).(showSuggestions := !old(showSuggestions))
    {
      showSuggestions := !showSuggestions;
    }

    method HandleToggle()
      modifies this
      ensures State() == Toggled(old(State()))
    {
      open := !open;
      showSuggestions := false;
    }

    method HandleSendText(text: Option<string>)
      modifies this
      ensures State() == SentText(old(State()), text)
    {
      var content := Trim(if text.Some? then text.value else "");
      if content == "" || loading {
        return;
      }
      var newMessages := messages + [Message(User, content)];
      errorMsg, messages, saved, loading, pending := "", newMessages, Log(newMessages), true, newMessages;
    }

    /** The request settles. */
    method Complete(outcome: Outcome)
      modifies this
      ensures State() == Completed(old(State()), outcome)
    {
      match outcome {
        case Replied(reply) =>
          var text := if reply.Some? && reply.value != "" then reply.value else ReplyFallback;
          messages := pending + [Message(Assistant, text)];
          saved := Log(messages);
        case Failed(status) =>
          if status == Some(401) {
            errorMsg := LoginNotice;
          } else {
            errorMsg := BusyNotice;
          }
      }
      loading := false;
    }

    method HandleSend()
      modifies this
      ensures State() == Sent(old(State()))
    {
      if Trim(input) == "" || loading {
        return;
      }
      var text := Trim(input);
      input := "";
      HandleSendText(Some(text));
    }

    method HandlePickSuggestion(text: string)
      modifies this
      ensures State() == Picked(old(State()), text)
    {
      showSuggestions := false;
      input := "";
      HandleSendText(Some(text));
    }
  }
}
