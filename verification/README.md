# atlas-assist in Dafny

A verified model of the decision logic of the atlas voice assistant. It covers:

- the **extension router** (`ExtensionRouter`) and the conversation flags every skill inherits from `AtlasExtension`;
- the **list skill** (`ListExtension` and its intent extractor `Context`);
- the **media skill** (`RadarrExtension` and `extract_search_term`);
- the **reply chunker** of the chat client (`ChatResponse.as_chunks` and `_split_long_sentence`);
- the **wake-word test** `start_conversation_when`, which all three chat modules define identically;
- the chat history's `add_msg` and `get_context`;
- the router test console (`ExtentionRouterTesterCLI.py`), which runs the list skill alone behind the router.

The model is functional. Every Python method that mutates `self` becomes a function from the old state to a pair (new state, result). A Python exception becomes the `Raised` case of `Common.Outcome`. State changed before the `raise` is kept, as in Python.

Some parts of the program are passed in as parameters:

- The skills' callbacks reach the router as a `Router.Hooks` record of functions.
- Each regular expression is a function from the utterance to its capture groups.
- The movie catalogue's HTTP API is the `Radarr.Api` record of two functions.
- `time.time()` is a parameter.

Python semantics are written out where they matter:

- truthiness of `None`, `""`, `{}` and the tuple `(None, None)`;
- `str.split()` and `str.strip()` on the `str.isspace` characters;
- `rstrip(string.punctuation)`;
- `str.rfind`, `s[:-1]`, and `sep.join`.

Files:

| file | modules |
|---|---|
| `common.dfy` | `Common`: `Option`, the exceptions, `Outcome`, truthiness |
| `text.dfy` | `Text`: Python's string primitives |
| `conversation.dfy` | `Conversation`: `start_conversation`, `end_conversation`, `request_further_context` |
| `router.dfy` | `Router`: `add_extension`, `route_voice_input`, `disambiguate_intent`, `handle_follow_up` |
| `router_properties.dfy` | `RouterProperties`: the dispatch properties, one lemma per branch |
| `lists_context.dfy` | `ListContext`: `extract_from_input` and the four `_extract_*` slot setters |
| `lists.dfy` | `Lists`: the list store operations and `process_voice_input` |
| `radarr.dfy` | `SearchTerm` (`extract_search_term`) and `Radarr` (the media skill) |
| `chunker.dfy` | `Chunker`: sentence splitting, long-sentence cutting, `as_chunks` |
| `chat.dfy` | `WakeWord` (`start_conversation_when`) and `ChatLog` (`Chat`) |
| `tester.dfy` | `TesterCli`: `create_router` and the `test_router` console loop |

Where the program's own comments and docstrings say one thing and its code does another, the model follows the code:

- **Ending a conversation.** The docstring of `end_conversation` (atlas/extension_router.py:19-23) says it resets the conversation state. The code only lowers the flag and keeps the context.
- **Disambiguation replies.** The comments and docstring of `handle_follow_up` (atlas/extension_router.py:139-152) say the chosen extension's response is returned. The code clears the pending record and then reads `original_input` from it, so it raises `TypeError` instead.
- **Single match with a falsy response.** The comment at atlas/extension_router.py:110 says the active conversation ends only when no extension responds. A matching extension whose response is falsy also counts as no response: the code falls through to the no-match tail.

Further behaviour of the code that the model keeps:

- **Active pointer.** The router never clears its active pointer when a follow-up ends the conversation. The stale pointer is skipped on the next call, because that extension is no longer in conversation.
- **Missing slots.** When the action, list or item is missing, the list skill raises `ValueError` with a fixed message.
- **Several keywords.** The list extractor runs every keyword present, so the last one wins.
- **Case.** Keyword detection by both skills is case-sensitive.

## Model

| member | source | states |
|---|---|---|
| Conversation.StartConversation | atlas/extension_router.py:11-17 | the flag goes up; the context is the argument exactly when it is a non-empty dict, otherwise `{}` |
| Conversation.EndConversation | atlas/extension_router.py:19-23 | the flag goes down and the context is left exactly as it was |
| Conversation.EndKeepsStartedContext | atlas/extension_router.py:11-23 | a conversation started with a non-empty context still holds that context after it ends, so the extension is not back in its initial state |
| Conversation.EndConversationResetting | atlas/extension_router.py:19-23 | the end the docstring describes: flag down and context empty |
| Conversation.StartThenResettingEndIsIdle | atlas/extension_router.py:11-23 | with the resetting end, start followed by end always returns to the initial state |
| Conversation.EndAgreesWithResettingIffEmpty | atlas/extension_router.py:19-23 | the two ends agree exactly when the context is already empty |
| Conversation.RequestFurtherContext | atlas/extension_router.py:59-68 | the message is returned unchanged; a conversation is started (with the given context) iff `start_conversation` is true, else the state is untouched |
| Router.Empty | atlas/extension_router.py:72-76 | a new router has no extensions, no active pointer and nothing pending |
| Router.AddExtension | atlas/extension_router.py:78-81 | the extension is appended last, earlier registrations keep their positions, pointer and pending record are unchanged |
| RouterProperties.RegistrationOrder | tests/test_extension_router.py:33-36 | registering a sequence of extensions one by one lists them after the earlier ones in registration order |
| Router.MatchingBelow | atlas/extension_router.py:93 | the indices returned are exactly those of the accepting extensions among the first n, strictly increasing |
| Router.Matching | atlas/extension_router.py:93 | the candidates are exactly the extensions whose `can_handle_input` holds, in registration order |
| Router.Names | atlas/extension_router.py:134 | one class name per candidate, in candidate order |
| Router.Prompt | atlas/extension_router.py:134-135 | the clarifying question starts "Did you mean a " and ends with "?"; for a single name it is exactly "Did you mean a X?" |
| Router.DisambiguateIntent | atlas/extension_router.py:120-136 | the utterance and candidates are stored, the prompt names the candidates, extensions and pointer are untouched |
| Router.FirstKeywordMatch | atlas/extension_router.py:148-149 | the first candidate in stored order whose `keyword_in_response` accepts the reply, or none when no candidate accepts it |
| Router.HandleFollowUp | atlas/extension_router.py:138-156 | the pending record is always cleared and nothing else changes; the call raises the `NoneType` subscript error iff some candidate accepts the reply, otherwise it returns the fixed re-prompt; with nothing pending it returns the "not sure" message |
| Router.ResolveDisambiguation | atlas/extension_router.py:138-156 | the intended reading: the first accepting candidate processes the stored original utterance; the re-prompt when none accepts; the pending record is cleared either way |
| Router.Abandon | atlas/extension_router.py:110-115 | the result is `None`, the pointer is cleared, the previously active extension's conversation is ended and nothing else changes |
| Router.Route | atlas/extension_router.py:84-115 | the index invariant is preserved, no extension is added or lost, a pending record afterwards is either the untouched old one or this utterance with its candidates, and only the active or a matching extension can change |
| Router.RouteResolving | atlas/extension_router.py:84-90 | the router with the intended disambiguation; it keeps the index invariant and the extension count |
| RouterProperties.ActiveConversationWins | atlas/extension_router.py:86-87 | with an active extension in conversation, the result is its follow-up output and only that extension's state changes |
| RouterProperties.ActiveConversationIgnoresMatching | atlas/extension_router.py:86-87 | in that branch no capability predicate or initial handler is consulted: replacing them leaves the result unchanged |
| RouterProperties.PendingAlwaysCleared | atlas/extension_router.py:89-90 | a pending disambiguation is always cleared by the next utterance, no extension changes, and the result is the raise or the re-prompt |
| RouterProperties.PendingOutcome | atlas/extension_router.py:148-156 | the reply raises iff some candidate accepts it, and yields the re-prompt iff none does |
| RouterProperties.ResolvedReplyRunsOriginalInput | atlas/extension_router.py:148-152 | exactly on a reply the router as written raises on, the intended router runs the first accepting candidate on the original utterance |
| RouterProperties.RoutesAgreeUnlessResolved | atlas/extension_router.py:84-115 | on every other utterance the written and intended routers give the same state and result |
| RouterProperties.AmbiguityStoresCandidates | atlas/extension_router.py:93-98 | with more than one match, the pending record is (utterance, all matches in registration order) and the prompt names them in that order |
| RouterProperties.PromptForTwo | atlas/extension_router.py:135 | two candidates give "Did you mean a A or a B?" |
| RouterProperties.PromptGrows | atlas/extension_router.py:135 | each further candidate adds " or a " and its name |
| RouterProperties.SingleMatchResponds | atlas/extension_router.py:100-108 | one match with a truthy response: the response is returned, the pointer becomes that extension iff it is now in conversation, otherwise the pointer is unchanged |
| RouterProperties.FalsyResponseFallsThrough | atlas/extension_router.py:104-115 | one match with a `None` or empty response: the result is `None`, the pointer is cleared and any previously active extension leaves its conversation |
| RouterProperties.NoMatchAbandons | atlas/extension_router.py:110-115 | no match: the result is `None`, a set pointer is cleared and its extension leaves its conversation with its context kept, and nothing else changes |
| RouterProperties.SingleMatchRaisePropagates | atlas/extension_router.py:102 | an exception from the single match propagates; the extension's own changes are kept, the router's fields are not touched |
| Lists.CanHandleInput | atlas/extensions/lists/ext/lists_ext.py:26-27 | the skill accepts an utterance iff "list" or "lists" occurs in it |
| Lists.CanHandleIffContainsList | atlas/extensions/lists/ext/lists_ext.py:26-27 | the skill accepts exactly the utterances containing "list", case-sensitively; checking for "lists" adds nothing |
| Lists.IndexOf | atlas/extensions/lists/ext/lists_ext.py:82 | the position of the first occurrence of the item |
| Lists.RemoveFirst | atlas/extensions/lists/ext/lists_ext.py:82 | `list.remove` drops exactly one copy of the item (multiset difference), the first one, and keeps the order of the rest |
| Lists.AddItem | atlas/extensions/lists/ext/lists_ext.py:70-76 | ITEM_ADDED iff the list exists, with the item appended at its end; otherwise LIST_NOT_FOUND with the store unchanged; other lists never change |
| Lists.RemoveItem | atlas/extensions/lists/ext/lists_ext.py:79-88 | ITEM_REMOVED iff list and item exist, with the first copy removed and the rest in order (so one copy fewer); otherwise LIST_NOT_FOUND or ITEM_NOT_FOUND with the store unchanged; other lists never change |
| Lists.CreateList | atlas/extensions/lists/ext/lists_ext.py:90-96 | LIST_CREATED iff the name is new, with an empty list added; otherwise LIST_ALREADY_EXISTS with the store unchanged |
| Lists.RemoveList | atlas/extensions/lists/ext/lists_ext.py:98-104 | LIST_REMOVED iff the name exists; the key set loses exactly that name and every remaining list is unchanged |
| Lists.AddThenRemoveRestores | atlas/extensions/lists/ext/lists_ext.py:70-88 | adding a new item and removing it again gives back the original store |
| Lists.CreateThenRemoveRestores | atlas/extensions/lists/ext/lists_ext.py:90-104 | creating a new list and removing it again gives back the original store |
| Lists.HandleRequest | atlas/extensions/lists/ext/lists_ext.py:56-67 | add, remove, create and delete run `add_item`, `remove_item`, `create_list` and `remove_list` on the extracted list (and item) and give their store and message; any other action gives no message and leaves the store alone; lists other than the named one never change |
| Lists.Validate | atlas/extensions/lists/ext/lists_ext.py:32-39 | no exception iff an action is set, the list is truthy, and the item is truthy when the action is add or remove; otherwise the first failing check, in the order action, list, item, picks the `ValueError` message |
| Lists.Respond | atlas/extensions/lists/ext/lists_ext.py:32-51 | after extraction: it raises iff validation fails, with that fault, keeping the extracted slots and the store; a read answers with the list read back or named as missing, keeping store and slots; any other action gives the store and message of `Lists.HandleRequest` and resets the slots; every returned message is non-empty; only the named list can change |
| Lists.ProcessVoiceInput | atlas/extensions/lists/ext/lists_ext.py:29-51 | on the slots extracted from the utterance: it raises iff validation fails, with the store untouched and the extracted slots kept; a read answers with the list read back or named as missing; any other action gives the store and message of `Lists.HandleRequest` and resets the slots to a fresh `Context`; every returned message is non-empty |
| Lists.Repr | atlas/extensions/lists/ext/lists_ext.py:43 | the list as Python prints it: bracketed, and exactly "[]" for an empty list |
| Lists.ReadBack | atlas/extensions/lists/ext/lists_ext.py:43 | the read reply is the fixed instruction followed by the list's `repr` |
| Lists.NoSuchList | atlas/extensions/lists/ext/lists_ext.py:45 | the missing-list reply holds the list's name between quotes, followed by "' list." |
| Lists.ReadRepliesDiffer | atlas/extensions/lists/ext/lists_ext.py:41-45 | reading an existing list, even an empty one, never gives the same reply as reading a missing list |
| Lists.ReadBackOfTwo | atlas/extensions/lists/ext/lists_ext.py:43 | the list `['milk', 'eggs']` is read back exactly as Python's f-string renders it |
| Lists.OtherListsUntouched | atlas/extensions/lists/ext/lists_ext.py:29-104 | on every path only the list named by the utterance can change |
| Lists.ProcessFollowUp | atlas/extensions/lists/ext/lists_ext.py:53-54 | a follow-up returns `None` and changes nothing |
| ListContext.RunExtractor | atlas/extensions/lists/ext/lists_ctx.py:38-64 | add/remove set item and list from their captures or `(None, None)`; create tries the first then the second pattern; create and delete never touch the item |
| ListContext.Present | atlas/extensions/lists/ext/lists_ctx.py:29-32 | a scanned keyword is reported iff it occurs as a whole word |
| ListContext.ScanKeywords | atlas/extensions/lists/ext/lists_ctx.py:31-35 | the utterance slot is kept, and the action is either unchanged or one of the scanned keywords |
| ListContext.ExtractFromInput | atlas/extensions/lists/ext/lists_ctx.py:12-35 | the utterance is stored; a read match sets action 'read' and the list to capture 2 and runs no extractor; otherwise the action is unchanged or one of add/remove/create/delete |
| ListContext.ScanWithoutKeywords | atlas/extensions/lists/ext/lists_ctx.py:31-35 | with no keyword present the scan changes nothing |
| ListContext.ScanLastKeywordWins | atlas/extensions/lists/ext/lists_ctx.py:22-35 | with keywords present, the action and list slot are those of the last present keyword in the order add, remove, create, delete |
| ListContext.ScanOutcome | atlas/extensions/lists/ext/lists_ctx.py:22-35 | for any keyword order without read, the scan leaves the context alone when no keyword is present, and otherwise takes action and list slot from the last keyword present |
| ListContext.ScanItemSlot | atlas/extensions/lists/ext/lists_ctx.py:38-46 | the item slot is set by the last add/remove keyword present and is untouched when neither is present |
| ListContext.SplitPhrase | atlas/extensions/lists/ext/lists_ctx.py:29 | a phrase of letter-only words joined by single spaces splits back into exactly those words |
| ListContext.AddressPhrase | atlas/extensions/lists/ext/lists_ctx.py:29 | "address the list" splits into "address", "the", "list" |
| ListContext.MilkPhrase | atlas/extensions/lists/ext/lists_ctx.py:29 | "add milk to the list" (either case of "add") splits into its five words |
| ListContext.AddressIsNotAdd | atlas/extensions/lists/ext/lists_ctx.py:29-32 | "address the list" does not request an add: the keyword inside a longer word is not detected |
| ListContext.AddKeywordIsCaseSensitive | atlas/extensions/lists/ext/lists_ctx.py:29-32 | "add milk to the list" requests an add, and "Add milk to the list" does not |
| ListContext.AddAsWordIsAdd | atlas/extensions/lists/ext/lists_ctx.py:29-32 | in "add milk to the list" the add keyword is the only one detected |
| ListContext.OnlyAddPresent | atlas/extensions/lists/ext/lists_ctx.py:29-32 | when "add" is among the split words and "remove", "create" and "delete" are not, add is the only keyword detected |
| ListContext.ExtractionOutcome | atlas/extensions/lists/ext/lists_ctx.py:12-35 | a read match leaves the item alone; with no keyword all slots keep their previous values; otherwise the last keyword present decides action and list |
| SearchTerm.CleanCapture | atlas/extensions/radarr/ext/utils.py:14 | the cleaned title is a prefix of the stripped capture, never starts with whitespace, never ends with punctuation, and only punctuation was removed from the end |
| SearchTerm.CleanedTermMayEndInSpace | atlas/extensions/radarr/ext/utils.py:14 | punctuation is stripped after whitespace, so "a ." becomes "a ", which ends in a space |
| SearchTerm.ExtractSearchTerm | atlas/extensions/radarr/ext/utils.py:6-19 | no match gives the tuple `(None, None)`, an exception gives `None`, a match gives the cleaned capture; the result is falsy iff there was an exception or the cleaned capture is empty |
| Radarr.SearchAndDownload | atlas/extensions/radarr/ext/radarr_ext.py:47-53 | no movie with a truthy message returns the message verbatim; otherwise the download result is returned |
| Radarr.CanHandleInput | atlas/extensions/radarr/ext/radarr_ext.py:20-21 | the skill accepts an utterance iff "download" occurs in it, case-sensitively (see `Radarr.DownloadAnywhereMatches` and `Radarr.CapitalisedDownloadMisses`) |
| Radarr.DownloadAnywhereMatches | atlas/extensions/radarr/ext/radarr_ext.py:20-21 | "download" anywhere in the utterance makes the skill a candidate |
| Radarr.CapitalisedDownloadMisses | atlas/extensions/radarr/ext/radarr_ext.py:20-21 | the test is case-sensitive: "Download" is not accepted |
| Radarr.ProcessVoiceInput | atlas/extensions/radarr/ext/radarr_ext.py:24-34 | a falsy search term starts a conversation with context `{}` and asks for the title; a truthy one is searched with no state change |
| Radarr.ProcessFollowUp | atlas/extensions/radarr/ext/radarr_ext.py:37-44 | the reply is stored as the search term only if none is stored; the conversation is over; the stored term is searched |
| Radarr.AskThenSearch | atlas/extensions/radarr/ext/radarr_ext.py:24-44 | an utterance without a usable title asks for one; the reply is then searched as the title with the conversation closed |
| Radarr.NoMatchSearchesForTuple | atlas/extensions/radarr/ext/utils.py:11-12 | when the title pattern does not match, the truthy `(None, None)` is searched for at once and no conversation starts |
| Text.Lower | atlas/chat_context.py:78 | same length, each character lowercased |
| Text.WordLength | atlas/chat_context.py:78 | the leading run of non-whitespace characters, ended by whitespace or the end |
| Text.Words | atlas/chat_context.py:78 | `split()` gives non-empty words without whitespace |
| Text.WordsKeepEveryLetter | atlas/chat_context.py:78 | the words laid end to end are exactly the input's non-whitespace characters, in order |
| Text.WordLengthOfWord | atlas/chat_context.py:78 | a word followed by whitespace or the end is the leading run in full |
| Text.WordsCons | atlas/chat_context.py:78 | a word followed by whitespace or the end is split off as the first word |
| Text.WordsOfJoin | atlas/chat_context.py:78 | `split()` undoes a single-space join of non-empty words without whitespace: it splits at every space and nowhere else |
| Text.WordsEmptyIffBlank | atlas/chat_context.py:78-83 | `split()` finds no word iff the string is all whitespace |
| Text.FirstWordIsLeadingRun | atlas/chat_context.py:78 | a string starting with a non-space character has the leading run as its first word |
| Text.LStrip | atlas/extensions/radarr/ext/utils.py:14 | a suffix of the input; only whitespace was removed, and it does not start with whitespace |
| Text.RStrip | atlas/extensions/radarr/ext/utils.py:14 | a prefix of the input; only whitespace was removed, and it does not end with whitespace |
| Text.Strip | atlas/extensions/radarr/ext/utils.py:14 | no longer than the input, and neither starts nor ends with whitespace |
| Text.StripOfStripped | api_client/main.py:25 | stripping a string that neither starts nor ends with whitespace changes nothing |
| Text.RStripPunctuation | atlas/extensions/radarr/ext/utils.py:14 | a prefix of the input; only punctuation was removed, and it does not end with punctuation |
| Text.RFind | api_client/main.py:130-131 | the last index below the end bound holding the character, or -1 when there is none |
| Text.RFindBelow | api_client/main.py:130-131 | the last index below k holding the character, or -1 |
| Chunker.FirstBreak | api_client/main.py:19 | the first position from which the sentence pattern can match, or -1 when there is none |
| Chunker.SpaceRunEnd | api_client/main.py:19 | the end of the greedy run of spaces |
| Chunker.Segments | api_client/main.py:19 | the sentences and the dropped runs of spaces concatenate back to the text; every sentence but the last ends in `.`, `!` or `?` followed by spaces; no sentence contains a break |
| Chunker.SegmentsStep | api_client/main.py:19 | cutting at the first break and splitting the rest gives a well-formed split of the whole text |
| Chunker.Sentences | api_client/main.py:19 | at least one sentence; no sentence contains a break; every sentence but the last ends in sentence punctuation |
| Chunker.OneSentence | api_client/main.py:19 | a text without a break is one sentence |
| Chunker.TwoSentences | api_client/main.py:19 | "A. B" splits into "A." and "B", and the space is dropped |
| Chunker.SplitPoint | api_client/main.py:129-133 | the larger of the last ',' and last '-' index below `max_length`, or -1; no separator lies after it within the bound |
| Chunker.SliceTo | api_client/main.py:135 | `s[:p]`, including `s[:-1]` for p = -1 |
| Chunker.SplitLongSentence | api_client/main.py:124-135 | with a separator found, first + separator + second is the sentence and the first part is shorter than `max_length`; without one the second part is the whole sentence |
| Chunker.StuckSplitRepeats | api_client/main.py:29-33 | with no separator within reach the split hands back the same over-long sentence, so the loop cannot end |
| Chunker.SentencePieces | api_client/main.py:29-33 | the pieces rejoined with single separators are the sentence and each fits the limit; `None` only for an over-long remainder |
| Chunker.NonEmpty | api_client/main.py:40 | `filter(None, ...)` keeps a string of the input iff it is non-empty |
| Chunker.StripAll | api_client/main.py:25 | each entry stripped, same length |
| Chunker.Tidy | api_client/main.py:33 | the pieces' chunks are non-empty and stripped |
| Chunker.TidyFits | api_client/main.py:29-33 | pieces that fit leave chunks that fit |
| Chunker.SentenceChunks | api_client/main.py:23-33 | every chunk of a sentence is non-empty, stripped and within the limit |
| Chunker.ChunksOf | api_client/main.py:23-40 | every chunk of a run of sentences is non-empty, stripped and within the limit |
| Chunker.ChunksOfSnoc | api_client/main.py:23-26 | one more sentence appends its own chunks behind the earlier ones |
| Chunker.CutStep | api_client/main.py:29-33 | one turn of the inner loop emits the sub-chunk and leaves a strictly shorter remainder with the rest of the chunks |
| Chunker.FittingSentence | api_client/main.py:23-37 | a sentence that fits is exactly one chunk |
| Chunker.SentencesNeverMerged | api_client/main.py:23-26 | two sentences that would fit together still come out as two chunks |
| Chunker.TwoSentenceReply | api_client/main.py:16-45 | the reply "A. B" gives the chunks ["A.", "B"] whatever the limit, when both fit |
| Chunker.AsChunks | api_client/main.py:16-45 | defined iff the loop terminates on every sentence; then every chunk is non-empty, stripped and at most `max_chunk_size` long |
| Chunker.CutSentence | api_client/main.py:29-33 | the inner `while` leaves a remainder that fits, and with the sub-chunks it gives exactly the sentence's chunks |
| Chunker.DropEmpty | api_client/main.py:40 | an empty string vanishes under `filter(None, ...)` |
| Chunker.FinalFlush | api_client/main.py:36-40 | the final `if current_chunk:` append changes nothing after filtering |
| Chunker.ChunkSentences | api_client/main.py:23-40 | the Python loop computes exactly the sentences' chunks in order |
| Chunker.AsChunksLoop | api_client/main.py:16-45 | the loop as written agrees with `AsChunks` whenever it terminates |
| Chunker.HardCut | api_client/main.py:129-135 | the corrected fallback cut is at least one character, and at the limit when the limit is positive |
| Chunker.CorrectedPieces | api_client/main.py:29-35 | the corrected cutting always terminates and, for a positive limit, every piece fits |
| Chunker.CorrectedPiecesAgree | api_client/main.py:29-35 | wherever the loop as written terminates, the corrected pieces are its pieces |
| Chunker.CorrectedChunksOf | api_client/main.py:23-40 | corrected chunks are non-empty and stripped, and fit for a positive limit |
| Chunker.AsChunksCorrected | api_client/main.py:16-45 | the corrected `as_chunks` is total, and every chunk fits for a positive limit |
| Chunker.CorrectedChunksAgree | api_client/main.py:16-45 | whenever `as_chunks` as written terminates, the corrected chunker gives the same chunks |
| Chunker.LongWordShowsTheFault | api_client/main.py:29-33 | a 51-character sentence of 'a's never leaves the loop at the default size, while the corrected chunker cuts it in two |
| WakeWord.StartConversationWhen | atlas/chat_context.py:75-90 | the loop returns true iff one of the first `in_first - 1` words of the lowercased, split input is a wake word; the start time is the clock reading (atlas/chat_context/main.py and chat_context/main.py hold identical copies) |
| WakeWord.Triggered | atlas/chat_context.py:85-88 | the reference meaning of the loop: a wake word among the first `in_first - 1` words; never with no words, no wake words, or a window of `in_first <= 1` |
| WakeWord.LowerKeepsSpace | atlas/chat_context.py:78 | lowercasing neither creates nor removes whitespace |
| WakeWord.BlankNeverStarts | atlas/chat_context/main.py:63-68 | empty or all-whitespace input never starts a conversation |
| WakeWord.EmptyWindowNeverStarts | chat_context/main.py:60-62 | `in_first <= 1` never starts a conversation |
| WakeWord.FirstTwoWordsCount | atlas/chat_context.py:47-49 | with the callers' `in_first=3`, exactly the first two words count |
| WakeWord.PunctuatedWakeWordMisses | atlas/chat_context.py:87 | matching is exact token equality, so "atlas," is not the wake word |
| ChatLog.AddMsg | atlas/chat_context/main.py:21-23 | one `{role, content}` message is appended at the end; earlier messages and the preload length are unchanged |
| ChatLog.GetContext | atlas/chat_context/main.py:18-19 | the history and its length |
| ChatLog.AddAll | atlas/chat_context.py:36-39 | after any run of `add_msg` calls the history is the old one followed by the new messages in order, and the preload length is unchanged |
| ChatLog.AddThenGetContext | chat_context/main.py:31-35 | after `add_msg`, `get_context` reports one more message, the new one last, the earlier ones unchanged |
| ChatLog.PreloadOf | atlas/chat_context/main.py:50-57 | empty text gives no preload; otherwise the text as a user message and "Ok" from the assistant |
| ChatLog.ContextPreload | atlas/chat_context/main.py:37-57 | as written: a missing file raises, an `AttributeError` from `warn` with the program's loguru logger (which has `warning` only), an `UnboundLocalError` on `content` with a logger that has `warn`; an existing file gives its preload |
| ChatLog.MissingPreloadRaises | atlas/chat_context/main.py:41-57 | the missing-file case that the warning says falls back to an empty context raises instead, with either logger |
| ChatLog.ContextPreloadCorrected | atlas/chat_context/main.py:37-57 | the intended reading: a missing file gives the empty preload; otherwise it agrees with the code |
| ChatLog.InitChat | atlas/chat_context/main.py:12-16 | the constructor as written: it raises the preload's error exactly when the preload file is missing (an `AttributeError` with the loguru logger), and otherwise builds the same chat as `ChatLog.NewChat` |
| ChatLog.NewChat | atlas/chat_context/main.py:12-16 | the corrected constructor (built on `ChatLog.ContextPreloadCorrected`): the history is the preload, empty or two messages, and empty exactly when the file is missing or empty; the preload length is remembered |
| ChatLog.PreloadStaysInFront | atlas/chat_context/main.py:14-23 | whatever is added later, the history still starts with the preload |
| TesterCli.CreateRouter | ExtentionRouterTesterCLI.py:7-10 | the console's router holds the list skill alone, idle, with no pointer and nothing pending, and with the loaded store and a fresh extractor context |
| TesterCli.ListHooks | atlas/extensions/lists/ext/lists_ext.py:26-54 | the router sees the list skill's own `can_handle_input` and `process_voice_input`, the latter changing only the skill's state, and a follow-up that changes nothing and returns `None` |
| TesterCli.ConsoleTurn | ExtentionRouterTesterCLI.py:16-33 | a line stops the console exactly when it is "exit" in any letter case, and then the router is untouched |
| TesterCli.RunConsole | ExtentionRouterTesterCLI.py:16-33 | a session yields at most one `Line` per input, and every `Line` but the last is an echo |
| TesterCli.SingleSkillRouting | atlas/extension_router.py:84-115 | with the list skill as the only extension, an utterance without "list" reaches nobody and changes nothing, and any other utterance is exactly one `process_voice_input` call of the skill; the router keeps that one-extension shape |
| TesterCli.ConsoleEchoesSkill | ExtentionRouterTesterCLI.py:22-33 | a line other than "exit" is always echoed: as the skill's reply, as the message of its `ValueError`, or as "No response from extension." when "list" is absent |
| TesterCli.SessionNeverCrashes | ExtentionRouterTesterCLI.py:16-33 | no exception escapes the console loop; the router keeps its shape, and with no "exit" every input gets one printed line |
| TesterCli.FreshConsoleNeverCrashes | ExtentionRouterTesterCLI.py:7-33 | a session on a freshly created router never crashes |

## Left out

- Speech capture and playback (the listener and mixer modules) are left out. They are threads and audio devices.
- All HTTP clients are left out: the OpenAI client, `RadarrAPI`, and the weather forecast. The catalogue search and download appear only as the functions of `Radarr.Api`.
- The weather skill is left out. It uses date parsing, floating-point hours and HTTP.
- Persistence is left out: the list store's JSON file, `Chat.save` and `Chat.load`. The list store is an in-memory map, and every `save()` is a no-op.
- The history file read by `atlas/chat_context.py` (`self.load() or CONTEXT_PRELOAD`) is left out for the same reason.
- Logging calls are left out, since they have no effect on results. The one exception is the `warn` call in `get_context_preload`: the program's loguru logger has no `warn` method, so that call raises, and `ChatLog.ContextPreload` models it.
- The async `Chat.initiated` is left out. It awaits the listener and passes its text to `start_conversation_when`, which is modelled.
- The entry points (`main.py`, `atlas/main.py`) and packaging are not part of this model. The router test console is modelled without its terminal I/O: `click.prompt` becomes a sequence of input lines, and `click.echo` becomes the returned `TesterCli.Line` values.
- The regular-expression engine is left out. Each pattern is an abstract capture function, so the model does not prove what the patterns themselves match.
- `add_extension`'s `TypeError` for a non-`AtlasExtension` argument is left out. In the model every registered value is an `Ext` by construction.
- `handle_voice_input` is a plain alias of `route_voice_input` and has no separate member.
- `keyword_in_response` is an abstract hook. No extension shown defines it, so in the program the disambiguation loop would raise `AttributeError` at that call. The console registers one extension, so it never reaches that call; `TesterCli.ListHooks` supplies a constant `false` in its place. The router models the hook as always defined. In the program the missing hook raises at atlas/extension_router.py:149, before the clears at lines 151 and 155, so `pending_disambiguation` stays set and every later utterance outside an active conversation raises again at the same call. `RouterProperties.PendingAlwaysCleared` therefore holds only for skills that define the hook.
- The shared module-level list `CONTEXT_PRELOAD` in chat_context/main.py is left out. `add_msg` mutates it through aliasing; the model treats each chat's history as a value.
- `WeatherExtension` overrides `is_in_conversation` to return `False`. The model's router reads the inherited flag instead; the weather skill is not part of the model, and every modelled skill uses the inherited method.
- ChatLog.NewChat: it models the corrected constructor, with an empty chat for a missing preload file; `ChatLog.InitChat` is the constructor as written.
- Router.Route: the extension callbacks are assumed to return strings or `None`. Any other truthy value `process_voice_input` might return is treated like a non-empty string.
- Text.Lower: only ASCII letters are lowercased. Python's `str.lower` also maps other Unicode letters.
- Text.Strip: the contract gives length and end characters only. That the result is a substring of the input follows from `Text.LStrip` and `Text.RStrip`.
- Lists.Repr: the read-back message renders a list as Python's `repr` does only for items without a quote, backslash or non-printable character. Otherwise Python switches quote style or escapes the character (a tab becomes `\t`).
- Chunker.AsChunks: a non-terminating run is `None` rather than a hang.
- Chunker.AsChunks: `max_chunk_size` is a natural number. A negative size, which would make `rfind` count from the end, is not modelled.
- Chunker.AsChunks: the text order of chunks follows from their construction one sentence and one piece at a time. It is not stated as a separate substring property.
- Router.RouteResolving: its contract gives only the invariants. Its behaviour is stated by the two lemmas that compare it with `Router.Route`.

## Findings

The main model keeps each fault below as the code has it, because the router and skills are modelled as written. Each row also has a corrected member, with the intended property proved, and a lemma relating the two.

| source | as written | input that shows it | evidently intended | confidence | as-written member | corrected member |
|---|---|---|---|---|---|---|
| atlas/extension_router.py:151-152 | `pending_disambiguation` is set to `None` and then subscripted | any pending disambiguation and a reply some candidate's `keyword_in_response` accepts: `TypeError` | the accepting candidate processes the stored original utterance | high (not executed) | RouterProperties.PendingOutcome | Router.ResolveDisambiguation |
| atlas/extension_router.py:19-23 | `end_conversation` only lowers the flag; the docstring says it resets the conversation state | `start_conversation({"k": "v"})` then `end_conversation()` leaves `{"k": "v"}` | the context is emptied too | medium (not executed) | Conversation.EndKeepsStartedContext | Conversation.EndConversationResetting |
| api_client/main.py:29-33 | the `while` loop assumes `_split_long_sentence` always shortens the chunk | a sentence of 51 'a's with the default `max_chunk_size=50`: `split_point` is -1, the remainder is the whole sentence, and the loop never ends | every over-long sentence is cut into pieces that fit | high (not executed) | Chunker.LongWordShowsTheFault | Chunker.AsChunksCorrected |
| atlas/chat_context/main.py:37-57 | the `except FileNotFoundError` branch calls `self.log.warn`, which loguru's logger does not have; with a logger that has `warn`, `content` is then read unassigned | no `context_preload` file: `AttributeError` (`UnboundLocalError` with a logger that has `warn`) instead of the announced empty context | a missing file gives an empty preload | high (not executed) | ChatLog.MissingPreloadRaises | ChatLog.ContextPreloadCorrected |
