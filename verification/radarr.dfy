/** The search-term helper of the media skill (`extract_search_term`). The
    regular-expression search is abstract; what is modelled is the shape
    of the result and the clean-up of the captured title. */
module SearchTerm {
  import opened Text

  /** The outcome of `re.search(regex, input)` for the helper: no match,
      a match with its second group, or an exception (a malformed pattern). */
  datatype RegexSearch = NoMatch | Match(group2: string) | Failed

  /** The three shapes `extract_search_term` returns: `None`, the tuple
      `(None, None)`, or a string. */
  datatype Term = NoTerm | NonePair | Str(text: string)

  /** Python truthiness of the returned value: `None` and `""` are falsy;
      the tuple `(None, None)` is non-empty and therefore truthy. */
  predicate TermTruthy(t: Term) {
    match t
    case NoTerm => false
    case NonePair => true
    case Str(s) => s != ""
  }

  /** `group(2).strip().rstrip(string.punctuation)`. */
  function CleanCapture(g: string): (r: string)
    ensures |r| <= |Strip(g)| && r == Strip(g)[..|r|]
    ensures r == [] || !IsPunctuation(r[|r| - 1])
    ensures r == [] || !IsSpace(r[0])
    ensures forall i :: |r| <= i < |Strip(g)| ==> IsPunctuation(Strip(g)[i])
  {
    RStripPunctuation(Strip(g))
  }

  /** `extract_search_term`: no match gives the tuple, an exception gives
      `None`, and a match gives the cleaned capture. */
  function ExtractSearchTerm(m: RegexSearch): (t: Term)
    ensures m.NoMatch? <==> t == NonePair
    ensures m.Failed? <==> t == NoTerm
    ensures m.Match? ==> t.Str? && t.text == CleanCapture(m.group2)
    ensures !TermTruthy(t) <==> m.Failed? || (m.Match? && CleanCapture(m.group2) == "")
  {
    match m
    case NoMatch => NonePair
    case Failed => NoTerm
    case Match(g) => Str(CleanCapture(g))
  }

  /** Punctuation is stripped only after whitespace, so a title can still
      end in a space: "a ." becomes "a ". */
  lemma CleanedTermMayEndInSpace()
    ensures CleanCapture("a .") == "a "
  {
    var s := "a .";
    assert !IsSpace(s[0]) && !IsSpace(s[2]);
    assert LStrip(s) == s;
    assert RStrip(s) == s;
    assert IsPunctuation(s[2]);
    assert s[..2] == "a ";
    assert !IsPunctuation("a "[1]);
    assert RStripPunctuation("a ") == "a ";
    assert RStripPunctuation(s) == RStripPunctuation("a ");
  }
}

/** The media-download skill (`RadarrExtension`): a two-turn conversation
    that asks for a title when the utterance has none, then searches the
    movie catalogue and queues the top match. The catalogue's HTTP API is
    an oracle. */
module Radarr {
  import opened Common
  import opened Text
  import opened Conversation
  import opened SearchTerm

  /** The fields of a catalogue entry the skill passes on. */
  datatype Movie = Movie(tmdbId: int, title: string, year: int)

  /** `RadarrAPI`: the top match for a search term (a movie, or an
      explanation), and the download request for a movie. */
  datatype Api = Api(
    searchTopMatch: Term -> (Option<Movie>, Option<string>),
    downloadMovie: Option<Movie> -> Outcome)

  const SearchTermContextMessage := "Ask the user to specify the name of the media to search for."
  const SearchTermKey := "search_term"

  /** `can_handle_input`: "download" occurs in the utterance, case-sensitively. */
  predicate CanHandleInput(input: string) {
    Contains(input, "download")
  }

  /** "download" anywhere in the utterance, whatever surrounds it, makes
      the skill a candidate. */
  lemma DownloadAnywhereMatches(before: string, after: string)
    ensures CanHandleInput(before + "download" + after)
  {
    var s := before + "download" + after;
    assert s[|before|..|before| + 8] == "download";
    assert OccursAt(s, "download", |before|);
  }

  /** The test is case-sensitive: a capitalised "Download" alone does not
      make the skill a candidate. */
  lemma CapitalisedDownloadMisses()
    ensures !CanHandleInput("Download")
  {
    assert !OccursAt("Download", "download", 0) by {
      assert "Download"[0] != "download"[0];
    }
  }

  /** `_search_and_download_movie`: a search that found nothing but
      explained why is answered with the explanation; anything else is
      handed to the download request. */
  function SearchAndDownload(api: Api, term: Term): (out: Outcome)
    ensures var found := api.searchTopMatch(term);
            && (found.0.None? && Truthy(found.1) ==> out == Says(found.1.value))
            && (found.0.Some? || !Truthy(found.1) ==> out == api.downloadMovie(found.0))
  {
    var found := api.searchTopMatch(term);
    if found.0.None? && Truthy(found.1) then Says(found.1.value)
    else api.downloadMovie(found.0)
  }

  /** `process_voice_input`: a falsy search term opens a conversation with
      an empty context and asks for the title; a truthy one (including the
      no-match tuple) is searched straight away with no conversation. */
  function ProcessVoiceInput(api: Api, capture: string -> RegexSearch, cv: Conv, input: string): (r: (Conv, Outcome))
    ensures var t := ExtractSearchTerm(capture(input));
            && (!TermTruthy(t) ==> r == (Conv(true, map[]), Says(SearchTermContextMessage)))
            && (TermTruthy(t) ==> r == (cv, SearchAndDownload(api, t)))
  {
    var t := ExtractSearchTerm(capture(input));
    if !TermTruthy(t) then
      var asked := RequestFurtherContext(cv, SearchTermContextMessage, true, None);
      (asked.0, Says(asked.1))
    else
      (cv, SearchAndDownload(api, t))
  }

  /** `process_follow_up_input`: the reply becomes the search term unless one
      is already stored, the conversation ends, and the stored term is
      searched. */
  function ProcessFollowUp(api: Api, cv: Conv, input: string): (r: (Conv, Outcome))
    ensures !r.0.inConversation
    ensures SearchTermKey in r.0.context
    ensures SearchTermKey in cv.context ==> r.0.context == cv.context
    ensures SearchTermKey !in cv.context ==> r.0.context == cv.context[SearchTermKey := input]
    ensures r.1 == SearchAndDownload(api, Str(r.0.context[SearchTermKey]))
  {
    var context := if SearchTermKey in cv.context then cv.context else cv.context[SearchTermKey := input];
    var ended := EndConversation(cv.(context := context));
    (ended, SearchAndDownload(api, Str(ended.context[SearchTermKey])))
  }

  /** The two-turn exchange: an utterance without a usable title asks for
      one, whatever state the skill was in; the reply is then searched as
      the title and the conversation is over. */
  lemma AskThenSearch(api: Api, capture: string -> RegexSearch, cv: Conv, input: string, reply: string)
    requires !TermTruthy(ExtractSearchTerm(capture(input)))
    ensures var first := ProcessVoiceInput(api, capture, cv, input);
            var second := ProcessFollowUp(api, first.0, reply);
            && first.1 == Says(SearchTermContextMessage)
            && first.0.inConversation
            && !second.0.inConversation
            && second.0.context == map[SearchTermKey := reply]
            && second.1 == SearchAndDownload(api, Str(reply))
  {
  }

  /** No match for the title pattern is not "no title": the tuple
      `(None, None)` is truthy, so it is searched for at once and no
      conversation starts. */
  lemma NoMatchSearchesForTuple(api: Api, capture: string -> RegexSearch, cv: Conv, input: string)
    requires capture(input) == NoMatch
    ensures ProcessVoiceInput(api, capture, cv, input) == (cv, SearchAndDownload(api, NonePair))
  {
  }
}
