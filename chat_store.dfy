/** The chat panel's store: whether the panel is open, the conversation so far, and
    whether a question is being answered. */
module ChatStore {

  datatype Sender = User | Bot

  datatype Message = Message(sender: Sender, text: string)

  class Store {
    var isOpen: bool
    var messages: seq<Message>
    var loading: bool

    /** The store as created: closed, empty and idle. */
    constructor ()
      ensures !isOpen && messages == [] && !loading
    {
      isOpen, messages, loading := false, [], false;
    }

    /** `toggle()`: opening keeps the conversation; closing discards it. */
    method Toggle()
      modifies this
      ensures isOpen == !old(isOpen)
      ensures messages == if old(isOpen) then [] else old(messages)
      ensures loading == old(loading)
    {
      if isOpen {
        isOpen, messages := false, [];
        return;
      }
      isOpen := true;
    }

    /** `addMessage(msg)`: append at the end, earlier messages unchanged and in order. */
    method AddMessage(msg: Message)
      modifies this
      ensures messages == old(messages) + [msg]
      ensures |messages| == |old(messages)| + 1
      ensures messages[..|old(messages)|] == old(messages) && messages[|old(messages)|] == msg
      ensures isOpen == old(isOpen) && loading == old(loading)
    {
      messages := messages + [msg];
    }

    /** `clearMessages()` */
    method ClearMessages()
      modifies this
      ensures messages == []
      ensures isOpen == old(isOpen) && loading == old(loading)
    {
      messages := [];
    }

    /** `setLoading(loading)` */
    method SetLoading(value: bool)
      modifies this
      ensures loading == value
      ensures isOpen == old(isOpen) && messages == old(messages)
    {
      loading := value;
    }
  }
}
