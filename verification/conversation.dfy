/** The conversation flags every extension inherits from `AtlasExtension`:
    whether it is waiting for a follow-up turn, and the key/value context
    accumulated for that exchange. */
module Conversation {
  import opened Common

  type Context = map<string, string>

  datatype Conv = Conv(inConversation: bool, context: Context)

  /** The state of a freshly constructed extension. */
  const Idle := Conv(false, map[])

  /** Python truthiness of an optional dict: `None` and `{}` are falsy. */
  predicate TruthyContext(c: Option<Context>) {
    c.Some? && c.value != map[]
  }

  /** `start_conversation(context)`: the flag goes up and the context is the
      argument when it is truthy, otherwise a fresh empty dict. */
  function StartConversation(cv: Conv, context: Option<Context>): (r: Conv)
    ensures r.inConversation
    ensures TruthyContext(context) ==> r.context == context.value
    ensures !TruthyContext(context) ==> r.context == map[]
    ensures r.context == map[] <==> !TruthyContext(context)
  {
    Conv(true, if TruthyContext(context) then context.value else map[])
  }

  /** `end_conversation()` as written: only the flag goes down; the context
      from the finished exchange stays in place. */
  function EndConversation(cv: Conv): (r: Conv)
    ensures !r.inConversation
    ensures r.context == cv.context
  {
    cv.(inConversation := false)
  }

  /** `end_conversation()` as its doc comment describes it: the whole
      conversation state is reset. */
  function EndConversationResetting(cv: Conv): (r: Conv)
    ensures !r.inConversation && r.context == map[]
  {
    Idle
  }

  /** `request_further_context(msg, start, context)`: the message comes back
      unchanged, and a conversation is started exactly when `start` holds. */
  function RequestFurtherContext(cv: Conv, msg: string, start: bool, context: Option<Context>): (r: (Conv, string))
    ensures r.1 == msg
    ensures r.0.inConversation <==> start || cv.inConversation
    ensures start ==> r.0 == StartConversation(cv, context)
    ensures !start ==> r.0 == cv
  {
    (if start then StartConversation(cv, context) else cv, msg)
  }

  /** Ending a conversation as written does not undo starting one: a
      conversation started with a non-empty context leaves that context
      behind after it ends. */
  lemma EndKeepsStartedContext(cv: Conv, c: Context)
    requires c != map[]
    ensures EndConversation(StartConversation(cv, Some(c))).context == c
    ensures EndConversation(StartConversation(cv, Some(c))) != Idle
  {
  }

  /** With the resetting end, a start/end round trip restores the state of a
      fresh extension whatever context was supplied. */
  lemma StartThenResettingEndIsIdle(cv: Conv, c: Option<Context>)
    ensures EndConversationResetting(StartConversation(cv, c)) == Idle
  {
  }

  /** The as-written end differs from the resetting one exactly when the
      context is non-empty. */
  lemma EndAgreesWithResettingIffEmpty(cv: Conv)
    ensures EndConversation(cv) == EndConversationResetting(cv) <==> cv.context == map[]
  {
  }
}
