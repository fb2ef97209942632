/** The chat store of the React front end (frontend/src/store/chat.js): a
    zustand store whose actions each merge a partial state, so every action
    replaces the fields it names and keeps the others. */
module Chat {
  import opened Json
  import opened Optional

  /** One chat message; `timestamp` is the ISO text of the moment it was added. */
  datatype Message = Message(role: string, content: string, timestamp: string)

  class ChatStore {
    var messages: seq<Message>
    var artifacts: seq<Value>
    var loading: bool
    var error: Option<string>

    /** The initial state (chat.js:4-7). */
    constructor ()
      ensures messages == [] && artifacts == [] && !loading && error == None
    {
      messages, artifacts, loading, error := [], [], false, None;
    }

    /** `addMessage` (chat.js:9-16): exactly one message, with the given role
        and content and the clock reading `now`, goes at the end; the earlier
        messages and the other fields stay. */
    method AddMessage(role: string, content: string, now: string)
      modifies this
      ensures messages == old(messages) + [Message(role, content, now)]
      ensures artifacts == old(artifacts) && loading == old(loading) && error == old(error)
    {
      messages := messages + [Message(role, content, now)];
    }

    /** `setMessages` (chat.js:18). */
    method SetMessages(ms: seq<Message>)
      modifies this
      ensures messages == ms
      ensures artifacts == old(artifacts) && loading == old(loading) && error == old(error)
    {
      messages := ms;
    }

    /** `setArtifacts` (chat.js:19). */
    method SetArtifacts(items: seq<Value>)
      modifies this
      ensures artifacts == items
      ensures messages == old(messages) && loading == old(loading) && error == old(error)
    {
      artifacts := items;
    }

    /** `setLoading` (chat.js:20). */
    method SetLoading(value: bool)
      modifies this
      ensures loading == value
      ensures messages == old(messages) && artifacts == old(artifacts) && error == old(error)
    {
      loading := value;
    }

    /** `setError` (chat.js:21). */
    method SetError(value: Option<string>)
      modifies this
      ensures error == value
      ensures messages == old(messages) && artifacts == old(artifacts) && loading == old(loading)
    {
      error := value;
    }

    /** `clearChat` (chat.js:23-26): the messages and the error go; the
        artifacts and the loading flag stay. */
    method ClearChat()
      modifies this
      ensures messages == [] && error == None
      ensures artifacts == old(artifacts) && loading == old(loading)
    {
      messages, error := [], None;
    }

    /** `clearError` (chat.js:28): only the error goes. */
    method ClearError()
      modifies this
      ensures error == None
      ensures messages == old(messages) && artifacts == old(artifacts) && loading == old(loading)
    {
      error := None;
    }
  }
}
