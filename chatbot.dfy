/**
 * `ChatBot`: the transcript, the input box and the loading flag of the assistant
 * panel, and the steps of `sendMessage` that change them. The webhook is not
 * modelled: how the request ended is an input (`Response`).
 */
module ChatBot {
  import opened JsText

  datatype Sender = User | Bot

  /** A transcript entry; its id and timestamp come from the clock and are left out. */
  datatype Message = Message(content: string, sender: Sender)

  /** How the webhook request ended. */
  datatype Response =
    | Ok(body: string)   // `response.ok`, and `response.text()` gave this body
    | NotOk              // the response arrived with a non-2xx status
    | Offline            // `fetch` or `response.text()` threw

  const GREETING := "Hello! I'm your AI assistant for the Neon Data Matrix dashboard. How can I help you analyze your business data today?"
  const PROCESSED := "I've processed your request successfully."
  const CONNECTIVITY := "I'm experiencing some connectivity issues, but I can still help you analyze your dashboard data."
  const OFFLINE := "I'm currently offline, but I can still help you understand your dashboard metrics and data insights."

  /**
   * The bot's reply: the body when it is non-empty (`data || ...`), else the
   * success text; the connectivity text for a non-ok status; the offline text
   * when the request threw.
   */
  function Reply(r: Response): (text: string)
    ensures text != ""
    ensures r.Ok? && r.body != "" ==> text == r.body
    ensures r.Ok? && r.body == "" ==> text == PROCESSED
    ensures r.NotOk? ==> text == CONNECTIVITY
    ensures r.Offline? ==> text == OFFLINE
  {
    match r
    case Ok(body) => if body != "" then body else PROCESSED
    case NotOk => CONNECTIVITY
    case Offline => OFFLINE
  }

  /** The three fixed replies differ from one another, so the transcript tells the outcomes apart. */
  lemma {:induction false} FixedRepliesDistinct()
    ensures PROCESSED != CONNECTIVITY && PROCESSED != OFFLINE && CONNECTIVITY != OFFLINE
  {
    assert |PROCESSED| == 41 && |CONNECTIVITY| == 96 && |OFFLINE| == 100;
  }

  /** `!content.trim()`: the content is empty or white space only. */
  predicate IsBlankInput(content: string) {
    Trim(content) == ""
  }

  class Panel {
    var messages: seq<Message>
    var inputValue: string
    var isLoading: bool

    /** Lines 20-29: the greeting alone, an empty input, not loading. */
    constructor ()
      ensures messages == [Message(GREETING, Bot)] && inputValue == "" && !isLoading
    {
      messages := [Message(GREETING, Bot)];
      inputValue := "";
      isLoading := false;
    }

    /** `disabled={!inputValue.trim() || isLoading}`, negated: the send button is enabled. */
    predicate CanSubmit()
      reads this
    {
      !IsBlankInput(inputValue) && !isLoading
    }

    /** `onChange={(e) => setInputValue(e.target.value)}`. */
    method SetInput(value: string)
      modifies this
      ensures inputValue == value
      ensures messages == old(messages) && isLoading == old(isLoading)
    {
      inputValue := value;
    }

    /**
     * Lines 33-44: blank content changes nothing; other content is appended as a
     * user message exactly as typed, the input is cleared and loading starts.
     */
    method BeginSend(content: string) returns (sent: bool)
      modifies this
      ensures sent <==> !IsBlankInput(content)
      ensures !sent ==> messages == old(messages) && inputValue == old(inputValue) && isLoading == old(isLoading)
      ensures sent ==> messages == old(messages) + [Message(content, User)] && inputValue == "" && isLoading
    {
      if IsBlankInput(content) {
        return false;
      }
      messages := messages + [Message(content, User)];
      inputValue := "";
      isLoading := true;
      return true;
    }

    /** Lines 59-85: the reply for the outcome is appended and `finally` clears `isLoading`. */
    method CompleteSend(r: Response)
      modifies this
      ensures messages == old(messages) + [Message(Reply(r), Bot)]
      ensures inputValue == old(inputValue) && !isLoading
    {
      var reply := Reply(r);
      messages := messages + [Message(reply, Bot)];
      isLoading := false;
    }

    /**
     * One whole `sendMessage(content)` with nothing typed meanwhile: for non-blank
     * content the transcript grows by the user message then the bot reply, earlier
     * messages unchanged, and loading is over.
     */
    method SendMessage(content: string, r: Response)
      modifies this
      ensures IsBlankInput(content) ==>
        messages == old(messages) && inputValue == old(inputValue) && isLoading == old(isLoading)
      ensures !IsBlankInput(content) ==>
        messages == old(messages) + [Message(content, User), Message(Reply(r), Bot)] &&
        inputValue == "" && !isLoading
      ensures |messages| >= |old(messages)| && messages[..|old(messages)|] == old(messages)
    {
      var sent := BeginSend(content);
      if sent {
        CompleteSend(r);
      }
    }

    /** `handleSubmit`: sends whatever is in the input box. */
    method Submit(r: Response)
      modifies this
      ensures IsBlankInput(old(inputValue)) ==>
        messages == old(messages) && inputValue == old(inputValue) && isLoading == old(isLoading)
      ensures !IsBlankInput(old(inputValue)) ==>
        messages == old(messages) + [Message(old(inputValue), User), Message(Reply(r), Bot)] &&
        inputValue == "" && !isLoading
    {
      SendMessage(inputValue, r);
    }
  }

  /** A fresh panel cannot submit until something other than white space is typed. */
  method FreshPanelDisabled() returns (p: Panel)
    ensures fresh(p) && !p.CanSubmit()
  {
    p := new Panel();
    assert Trim("") == "";
  }

  /**
   * A whole send leaves the button disabled: while the request is in flight the
   * panel is loading, and once the reply lands the input box is empty.
   */
  method SendLeavesDisabled(p: Panel, content: string, r: Response)
    requires !IsBlankInput(content)
    modifies p
    ensures !p.CanSubmit() && !p.isLoading && p.inputValue == ""
    ensures |p.messages| == |old(p.messages)| + 2
  {
    var sent := p.BeginSend(content);
    assert p.isLoading && !p.CanSubmit();
    p.CompleteSend(r);
    assert Trim("") == "";
  }
}
