/** The lease chat panel's question handler: the guard, the user's message, the request
    and the bot's single reply. The selected lease comes from the lease store and the
    server's answer is an input. */
module LeaseChatbotModal {
  import opened JsText
  import opened Outcomes
  import ChatStore

  /** The body of `POST /api/lease/:id/ask`'s answer: `answer` on success, `error` on a
      refusal. */
  datatype AskBody = AskBody(answer: Option<string>, error: Option<string>)

  const NoAnswerText := "No answer found."
  /** The message of the `Error` thrown for a refusal without an `error` field. */
  const RefusedText := "Something went wrong"
  /** The reply shown for a caught value that is not an `Error`. */
  const CaughtText := "Something went wrong."

  /** The text of the bot's reply to a question the server answered as `reply`: the
      answer (even an empty one), or the refusal's `error`, or the thrown error's
      message, each with its own default. */
  function BotReply(reply: Fetched<AskBody>): (text: string)
    ensures reply.Responded? && reply.ok ==> text == reply.data.answer.GetOr(NoAnswerText)
    ensures reply.Responded? && !reply.ok ==> text == reply.data.error.GetOr(RefusedText)
    ensures reply.Threw? && reply.err.ErrorObject? ==> text == reply.err.message
    ensures reply.Threw? && reply.err.NonError? ==> text == CaughtText
  {
    match reply
    case Responded(ok, data) =>
      if ok then data.answer.GetOr(NoAnswerText)
      else MessageOr(ErrorObject(data.error.GetOr(RefusedText)), CaughtText)
    case Threw(e) => MessageOr(e, CaughtText)
  }

  /** An answered question never shows an empty reply unless the server sent one. */
  lemma ReplyDefaultsAreNonEmpty(reply: Fetched<AskBody>)
    requires match reply
             case Responded(ok, data) => (ok ==> data.answer.None?) && (!ok ==> data.error.None?)
             case Threw(e) => e.NonError?
    ensures BotReply(reply) in {NoAnswerText, RefusedText, CaughtText}
  {
  }

  /** The request `askQuestion` makes: the lease and the trimmed question. */
  datatype AskRequest = AskRequest(leaseId: int, question: string)

  class ChatbotModal {
    var input: string
    const chat: ChatStore.Store

    constructor (chat: ChatStore.Store)
      ensures this.chat == chat && input == ""
    {
      this.chat := chat;
      input := "";
    }

    /** `askQuestion()` for the lease selected in quick look (`leaseId`), where `reply` is
        how the request ended. A blank input or no selected lease does nothing at all;
        otherwise the trimmed question is sent and recorded, followed by exactly one bot
        reply, the input is cleared, and loading ends false. */
    method AskQuestion(leaseId: Option<int>, reply: Fetched<AskBody>) returns (sent: Option<AskRequest>)
      modifies this, chat
      ensures sent.None? <==> Trim(old(input)) == "" || leaseId.None?
      ensures sent.None? ==>
        input == old(input) && chat.messages == old(chat.messages) && chat.loading == old(chat.loading)
      ensures sent.Some? ==>
        && sent.value == AskRequest(leaseId.value, Trim(old(input)))
        && chat.messages == old(chat.messages) + [ChatStore.Message(ChatStore.User, Trim(old(input))),
                                                  ChatStore.Message(ChatStore.Bot, BotReply(reply))]
        && input == ""
        && !chat.loading
      ensures chat.isOpen == old(chat.isOpen)
    {
      if Trim(input) == "" || leaseId.None? {
        return None;
      }
      var question := Trim(input);
      chat.AddMessage(ChatStore.Message(ChatStore.User, question));
      input := "";
      chat.SetLoading(true);
      sent := Some(AskRequest(leaseId.value, question));
      var text;
      match reply {
        case Responded(ok, data) =>
          if !ok {
            text := MessageOr(ErrorObject(data.error.GetOr(RefusedText)), CaughtText);
          } else {
            text := data.answer.GetOr(NoAnswerText);
          }
        case Threw(e) =>
          text := MessageOr(e, CaughtText);
      }
      assert text == BotReply(reply);
      chat.AddMessage(ChatStore.Message(ChatStore.Bot, text));
      chat.SetLoading(false);
    }
  }
}
