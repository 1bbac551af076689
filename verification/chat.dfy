/** The wake-word test `start_conversation_when`, which the three chat
    modules define identically: the utterance is lowercased and split into
    words, and a conversation starts when one of the first `in_first - 1`
    words is a wake word. The clock reading it returns is a parameter. */
module WakeWord {
  import opened Text

  /** The words `CHAT_INITIATION_WORDS` lists. */
  const InitiationWords := ["atlas"]

  /** The `in_first` every caller passes. */
  const InFirst := 3

  /** The reference meaning of the test: some word at an index below
      `in_first - 1` that exists is a wake word. */
  predicate Triggered(wordList: seq<string>, inFirst: int, words: seq<string>): (b: bool)
    ensures b ==> inFirst >= 2 && |words| >= 1 && |wordList| >= 1
  {
    exists n :: 0 <= n < inFirst - 1 && n < |words| && words[n] in wordList
  }

  /** `start_conversation_when(word_list, in_first, words_of)`, written as
      the Python loop; `now` stands for `time.time()`. */
  method StartConversationWhen(wordList: seq<string>, inFirst: int, input: string, now: int)
    returns (inConversation: bool, startTime: int)
    ensures startTime == now
    ensures inConversation <==> Triggered(wordList, inFirst, Words(Lower(input)))
  {
    var words := Words(Lower(input));
    startTime := now;
    if |words| == 0 {
      return false, startTime;
    }
    var n := 0;
    while n < inFirst - 1
      invariant n == 0 || n <= inFirst - 1
      invariant forall j :: 0 <= j < n && j < |words| ==> words[j] !in wordList
    {
      if |words| > n && words[n] in wordList {
        return true, startTime;
      }
      n := n + 1;
    }
    return false, startTime;
  }

  /** Lowercasing maps whitespace to whitespace and nothing else to it. */
  lemma LowerKeepsSpace(s: string)
    ensures forall i :: 0 <= i < |s| ==> (IsSpace(Lower(s)[i]) <==> IsSpace(s[i]))
  {
  }

  /** Empty or all-whitespace input never starts a conversation, whatever
      the wake words and window. */
  lemma BlankNeverStarts(wordList: seq<string>, inFirst: int, input: string)
    requires forall i :: 0 <= i < |input| ==> IsSpace(input[i])
    ensures !Triggered(wordList, inFirst, Words(Lower(input)))
  {
    LowerKeepsSpace(input);
    WordsEmptyIffBlank(Lower(input));
  }

  /** A window of `in_first <= 1` looks at no word at all. */
  lemma EmptyWindowNeverStarts(wordList: seq<string>, inFirst: int, words: seq<string>)
    requires inFirst <= 1
    ensures !Triggered(wordList, inFirst, words)
  {
  }

  /** At the call sites (`in_first=3`) exactly the first two words count. */
  lemma FirstTwoWordsCount(wordList: seq<string>, words: seq<string>)
    ensures Triggered(wordList, InFirst, words) <==>
      (|words| > 0 && words[0] in wordList) || (|words| > 1 && words[1] in wordList)
  {
    if |words| > 0 && words[0] in wordList {
      assert 0 < InFirst - 1;
    }
    if |words| > 1 && words[1] in wordList {
      assert 1 < InFirst - 1;
    }
  }

  /** Matching is whole-word equality after lowercasing: punctuation stuck
      to the wake word ("atlas,") defeats it. */
  lemma PunctuatedWakeWordMisses(rest: seq<string>)
    requires |rest| == 0 || rest[0] !in InitiationWords
    ensures !Triggered(InitiationWords, InFirst, ["atlas,"] + rest)
  {
    var words := ["atlas,"] + rest;
    assert words[0] != "atlas";
    if |rest| > 0 {
      assert words[1] == rest[0];
    }
  }
}

/** The conversation history of the chat (`Chat`): a list of role/content
    messages that starts with the preload and only grows. */
module ChatLog {
  import opened Common

  /** One `{"role": ..., "content": ...}` entry. */
  datatype Message = Message(role: string, content: string)

  const User := "user"
  const Assistant := "assistant"
  const System := "system"

  /** `Chat`: the history and the length of the preload it started with. */
  datatype Chat = Chat(context: seq<Message>, preloadLength: nat)

  /** `add_msg(role, msg)`: one message is appended; the rest stays. */
  function AddMsg(c: Chat, role: string, msg: string): (r: Chat)
    ensures |r.context| == |c.context| + 1
    ensures r.context[..|c.context|] == c.context
    ensures r.context[|c.context|] == Message(role, msg)
    ensures r.preloadLength == c.preloadLength
  {
    c.(context := c.context + [Message(role, msg)])
  }

  /** `get_context()`: the history and its length. */
  function GetContext(c: Chat): (r: (seq<Message>, nat))
    ensures r.0 == c.context && r.1 == |r.0|
  {
    (c.context, |c.context|)
  }

  /** A run of `add_msg` calls, one per entry. The history is append-only:
      afterwards it is the old history followed by the new messages in
      order, so the preload and every earlier message survive. */
  function AddAll(c: Chat, msgs: seq<Message>): (r: Chat)
    ensures r.context == c.context + msgs
    ensures r.preloadLength == c.preloadLength
    decreases |msgs|
  {
    if msgs == [] then c
    else
      var c1 := AddMsg(c, msgs[0].role, msgs[0].content);
      assert c1.context + msgs[1..] == c.context + msgs by {
        assert c1.context == c.context + [msgs[0]];
        assert c.context + [msgs[0]] + msgs[1..] == c.context + msgs;
      }
      AddAll(c1, msgs[1..])
  }

  /** What `get_context` reports after `add_msg`: one more message, the new
      one last, the earlier ones unchanged. */
  lemma AddThenGetContext(c: Chat, role: string, msg: string)
    ensures var before := GetContext(c);
            var after := GetContext(AddMsg(c, role, msg));
            && after.1 == before.1 + 1
            && after.0[after.1 - 1] == Message(role, msg)
            && after.0[..before.1] == before.0
  {
  }

  /** The result of `get_context_preload`: the preload messages, or the
      exception it raises. */
  datatype Preload = Loaded(messages: seq<Message>) | PreloadFailed(fault: Fault)

  /** The message for reading `content` before it was ever assigned. */
  const UnboundContent := UnboundLocalError("cannot access local variable 'content' where it is not associated with a value")

  /** The logger `Chat` is given. The program passes loguru's logger, which
      has `warning` but no `warn`; a logger with `warn` (the standard
      library's, say) gets past the warning in `get_context_preload`. */
  datatype Logger = Loguru | WithWarn

  /** The message for calling `warn` on loguru's logger. */
  const NoWarnMethod := AttributeError("'Logger' object has no attribute 'warn'")

  /** The preload built from a file's text: a user message with the text
      and the assistant's "Ok", or nothing when the text is empty. */
  function PreloadOf(content: string): (r: seq<Message>)
    ensures content == "" <==> r == []
    ensures r != [] ==> r == [Message(User, content), Message(Assistant, "Ok")]
  {
    if content != "" then [Message(User, content), Message(Assistant, "Ok")] else []
  }

  /** `get_context_preload` as written: `file` is the text of the preload
      file, `None` when it does not exist. The `except FileNotFoundError`
      branch calls `self.log.warn`, which loguru's logger does not have;
      with a logger that has it, the branch only logs and `content` is
      then read unassigned. */
  function ContextPreload(log: Logger, file: Option<string>): (r: Preload)
    ensures file.None? <==> r.PreloadFailed?
    ensures file.None? && log == Loguru ==> r.fault == NoWarnMethod
    ensures file.None? && log == WithWarn ==> r.fault == UnboundContent
    ensures file.Some? ==> r == Loaded(PreloadOf(file.value))
  {
    match file
    case None => PreloadFailed(if log == Loguru then NoWarnMethod else UnboundContent)
    case Some(content) => Loaded(PreloadOf(content))
  }

  /** The missing-file case the warning promises to handle ("Using empty
      context") raises instead, whichever logger is given: loguru's fails
      on `warn`, any other fails on the unassigned `content`. */
  lemma MissingPreloadRaises(log: Logger)
    ensures ContextPreload(log, None).PreloadFailed?
    ensures ContextPreload(log, None) != Loaded([])
    ensures ContextPreload(Loguru, None) == PreloadFailed(NoWarnMethod)
    ensures ContextPreload(WithWarn, None) == PreloadFailed(UnboundContent)
  {
  }

  /** `get_context_preload` as its warning describes it: a missing file
      gives the empty preload. */
  function ContextPreloadCorrected(file: Option<string>): (r: seq<Message>)
    ensures file.None? ==> r == []
    ensures forall log :: file.Some? ==> ContextPreload(log, file) == Loaded(r)
  {
    match file
    case None => []
    case Some(content) => PreloadOf(content)
  }

  /** The result of `Chat.__init__`: a chat, or the exception that escaped
      from reading the preload. */
  datatype Init = Constructed(chat: Chat) | InitFailed(fault: Fault)

  /** `Chat.__init__` as written: without a preload file the constructor
      raises what `get_context_preload` raises (`AttributeError` with the
      program's loguru logger); otherwise the history is the preload and
      its length is remembered. */
  function InitChat(log: Logger, file: Option<string>): (r: Init)
    ensures file.None? <==> r.InitFailed?
    ensures file.None? ==> r == InitFailed(ContextPreload(log, file).fault)
    ensures file.None? && log == Loguru ==> r == InitFailed(NoWarnMethod)
    ensures file.Some? ==> r == Constructed(NewChat(file))
  {
    match ContextPreload(log, file)
    case PreloadFailed(f) => InitFailed(f)
    case Loaded(preload) => Constructed(Chat(preload, |preload|))
  }

  /** `Chat.__init__` with the corrected preload: the history is the
      preload and its length is remembered; a missing file gives an empty
      chat. */
  function NewChat(file: Option<string>): (r: Chat)
    ensures r.preloadLength == |r.context|
    ensures |r.context| == 0 || |r.context| == 2
    ensures r.context == [] <==> file.None? || file == Some("")
  {
    var preload := ContextPreloadCorrected(file);
    Chat(preload, |preload|)
  }

  /** Whatever is added later, a new chat's history starts with its
      preload. */
  lemma PreloadStaysInFront(file: Option<string>, msgs: seq<Message>)
    ensures var c := AddAll(NewChat(file), msgs);
            c.preloadLength <= |c.context| && c.context[..c.preloadLength] == ContextPreloadCorrected(file)
  {
  }
}
