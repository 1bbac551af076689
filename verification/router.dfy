/** The extension router: the registered extensions in registration order,
    the extension whose conversation is active (if any), and the utterance
    waiting for a disambiguation reply (if any). Extensions are referred to
    by their registration index; registration only ever appends, so an
    index, once handed out, always names the same extension. */
module Router {
  import opened Common
  import opened Text
  import opened Conversation

  /** One registered extension: its class name, the conversation flags it
      inherits from `AtlasExtension`, and its skill-specific state `S`. */
  datatype Ext<S> = Ext(name: string, conv: Conv, local: S)

  /** The behaviour each skill supplies. The router's other call,
      `is_in_conversation()`, is the inherited flag `Ext.conv.inConversation`. */
  datatype Hooks<!S> = Hooks(
    canHandle: (Ext<S>, string) -> bool,
    processVoiceInput: (Ext<S>, string) -> (Ext<S>, Outcome),
    processFollowUp: (Ext<S>, string) -> (Ext<S>, Outcome),
    keywordInResponse: (Ext<S>, string) -> bool)

  /** The stored `{"original_input", "matching_extensions"}` record. */
  datatype Pending = Pending(originalInput: string, candidates: seq<nat>)

  datatype RouterState<S> = RouterState(
    exts: seq<Ext<S>>,
    active: Option<nat>,
    pending: Option<Pending>)
  {
    /** Every stored index names a registered extension. */
    ghost predicate Valid() {
      && (active.Some? ==> active.value < |exts|)
      && (pending.Some? ==> forall k :: 0 <= k < |pending.value.candidates| ==> pending.value.candidates[k] < |exts|)
    }
  }

  const NotSureMessage := "I'm not sure what you're referring to."
  const StillNotSureMessage := "I'm still not sure what you meant. Could you please specify if it's a movie, game, or something else?"
  /** The `TypeError` raised by subscripting the just-cleared pending record. */
  const ClearedPendingFault := TypeError("'NoneType' object is not subscriptable")

  /** The router as constructed: no extensions, no pointer, nothing pending. */
  function Empty<S>(): (r: RouterState<S>)
    ensures r.Valid()
    ensures r.exts == [] && r.active.None? && r.pending.None?
  {
    RouterState([], None, None)
  }

  /** `add_extension`: the new extension goes last; earlier registrations
      keep their positions, and nothing else changes. */
  function AddExtension<S>(r: RouterState<S>, e: Ext<S>): (r': RouterState<S>)
    requires r.Valid()
    ensures r'.Valid()
    ensures |r'.exts| == |r.exts| + 1 && r'.exts[|r.exts|] == e
    ensures r'.exts[..|r.exts|] == r.exts
    ensures r'.active == r.active && r'.pending == r.pending
  {
    r.(exts := r.exts + [e])
  }

  /** The registration indices of the extensions whose `can_handle_input`
      holds, in registration order (the list comprehension of
      `route_voice_input`), considering only the first `n` extensions. */
  function MatchingBelow<S>(h: Hooks<S>, exts: seq<Ext<S>>, input: string, n: nat): (m: seq<nat>)
    requires n <= |exts|
    ensures forall k :: 0 <= k < |m| ==> m[k] < n && h.canHandle(exts[m[k]], input)
    ensures forall i :: 0 <= i < n && h.canHandle(exts[i], input) ==> i in m
    ensures forall k, l :: 0 <= k < l < |m| ==> m[k] < m[l]
  {
    if n == 0 then []
    else
      var m := MatchingBelow(h, exts, input, n - 1);
      if h.canHandle(exts[n - 1], input) then m + [n - 1] else m
  }

  function Matching<S>(h: Hooks<S>, exts: seq<Ext<S>>, input: string): (m: seq<nat>)
    ensures forall k :: 0 <= k < |m| ==> m[k] < |exts| && h.canHandle(exts[m[k]], input)
    ensures forall i :: 0 <= i < |exts| && h.canHandle(exts[i], input) ==> i in m
    ensures forall k, l :: 0 <= k < l < |m| ==> m[k] < m[l]
  {
    MatchingBelow(h, exts, input, |exts|)
  }

  /** The class names of the given extensions, in the given order. */
  function Names<S>(exts: seq<Ext<S>>, ids: seq<nat>): (ns: seq<string>)
    requires forall k :: 0 <= k < |ids| ==> ids[k] < |exts|
    ensures |ns| == |ids|
    ensures forall k :: 0 <= k < |ids| ==> ns[k] == exts[ids[k]].name
  {
    if ids == [] then [] else [exts[ids[0]].name] + Names(exts, ids[1..])
  }

  /** The clarifying question built from the matching class names. */
  function Prompt(names: seq<string>): (r: string)
    ensures |r| > 15 && r[..15] == "Did you mean a " && r[|r| - 1] == '?'
    ensures |names| == 1 ==> r == "Did you mean a " + names[0] + "?"
  {
    "Did you mean a " + Join(names, " or a ") + "?"
  }

  /** `disambiguate_intent`: the utterance and the candidates are stored and
      the clarifying question is returned; the active pointer is untouched. */
  function DisambiguateIntent<S>(r: RouterState<S>, input: string, candidates: seq<nat>): (res: (RouterState<S>, Outcome))
    requires r.Valid()
    requires forall k :: 0 <= k < |candidates| ==> candidates[k] < |r.exts|
    ensures res.0.Valid()
    ensures res.0.pending == Some(Pending(input, candidates))
    ensures res.0.exts == r.exts && res.0.active == r.active
    ensures res.1 == Says(Prompt(Names(r.exts, candidates)))
  {
    (r.(pending := Some(Pending(input, candidates))), Says(Prompt(Names(r.exts, candidates))))
  }

  /** The first candidate, in stored order, whose `keyword_in_response`
      accepts the reply. */
  function FirstKeywordMatch<S>(h: Hooks<S>, exts: seq<Ext<S>>, candidates: seq<nat>, reply: string): (k: Option<nat>)
    requires forall j :: 0 <= j < |candidates| ==> candidates[j] < |exts|
    ensures k.Some? ==> k.value < |candidates| && h.keywordInResponse(exts[candidates[k.value]], reply)
    ensures k.Some? ==> forall j :: 0 <= j < k.value ==> !h.keywordInResponse(exts[candidates[j]], reply)
    ensures k.None? ==> forall j :: 0 <= j < |candidates| ==> !h.keywordInResponse(exts[candidates[j]], reply)
  {
    if candidates == [] then None
    else if h.keywordInResponse(exts[candidates[0]], reply) then Some(0)
    else
      match FirstKeywordMatch(h, exts, candidates[1..], reply)
      case None => None
      case Some(j) => Some(j + 1)
  }

  /** `handle_follow_up` as written. Whatever the reply, the pending record
      is gone afterwards. When a candidate accepts the reply, the record is
      cleared before `original_input` is read from it, so the call raises
      and no extension is invoked. */
  function HandleFollowUp<S>(h: Hooks<S>, r: RouterState<S>, reply: string): (res: (RouterState<S>, Outcome))
    requires r.Valid()
    ensures res.0.Valid()
    ensures res.0 == r.(pending := None)
    ensures r.pending.None? ==> res.1 == Says(NotSureMessage)
    ensures r.pending.Some? ==>
      (res.1 == Raised(ClearedPendingFault) <==>
        exists k :: 0 <= k < |r.pending.value.candidates| && h.keywordInResponse(r.exts[r.pending.value.candidates[k]], reply))
    ensures r.pending.Some? && !res.1.Raised? ==> res.1 == Says(StillNotSureMessage)
  {
    match r.pending
    case None => (r, Says(NotSureMessage))
    case Some(p) =>
      match FirstKeywordMatch(h, r.exts, p.candidates, reply)
      case Some(_) => (r.(pending := None), Raised(ClearedPendingFault))
      case None => (r.(pending := None), Says(StillNotSureMessage))
  }

  /** `handle_follow_up` as its comments describe it: the first candidate
      that accepts the reply processes the ORIGINAL utterance, and the
      pending record is cleared in every case. */
  function ResolveDisambiguation<S>(h: Hooks<S>, r: RouterState<S>, reply: string): (res: (RouterState<S>, Outcome))
    requires r.Valid()
    ensures res.0.Valid()
    ensures res.0.pending.None? && res.0.active == r.active && |res.0.exts| == |r.exts|
    ensures r.pending.None? ==> res == (r, Says(NotSureMessage))
    ensures r.pending.Some? ==>
      var p := r.pending.value;
      match FirstKeywordMatch(h, r.exts, p.candidates, reply)
      case None =>
        res == (r.(pending := None), Says(StillNotSureMessage))
      case Some(k) =>
        var i := p.candidates[k];
        var step := h.processVoiceInput(r.exts[i], p.originalInput);
        res.0.exts == r.exts[i := step.0] && res.1 == step.1
  {
    match r.pending
    case None => (r, Says(NotSureMessage))
    case Some(p) =>
      match FirstKeywordMatch(h, r.exts, p.candidates, reply)
      case None => (r.(pending := None), Says(StillNotSureMessage))
      case Some(k) =>
        var i := p.candidates[k];
        var step := h.processVoiceInput(r.exts[i], p.originalInput);
        (r.(exts := r.exts[i := step.0], pending := None), step.1)
  }

  /** The tail of `route_voice_input` reached when nothing responded: the
      previously active extension, if any, has its conversation ended and
      the pointer is cleared. */
  function Abandon<S>(r: RouterState<S>): (res: (RouterState<S>, Outcome))
    requires r.Valid()
    ensures res.0.Valid()
    ensures res.1 == Returned(None)
    ensures res.0.active.None? && res.0.pending == r.pending && |res.0.exts| == |r.exts|
    ensures r.active.None? ==> res.0 == r
    ensures r.active.Some? ==>
      res.0.exts == r.exts[r.active.value := r.exts[r.active.value].(conv := EndConversation(r.exts[r.active.value].conv))]
  {
    match r.active
    case None => (r, Returned(None))
    case Some(a) =>
      var e := r.exts[a];
      (r.(exts := r.exts[a := e.(conv := EndConversation(e.conv))], active := None), Returned(None))
  }

  /** Whether the active pointer names an extension that is still in its
      conversation: the first branch of `route_voice_input`. */
  predicate InActiveConversation<S>(r: RouterState<S>)
    requires r.Valid()
  {
    r.active.Some? && r.exts[r.active.value].conv.inConversation
  }

  /** `route_voice_input`: active conversation first, then a pending
      disambiguation, then capability matching. */
  function Route<S>(h: Hooks<S>, r: RouterState<S>, input: string): (res: (RouterState<S>, Outcome))
    requires r.Valid()
    ensures res.0.Valid()
    ensures |res.0.exts| == |r.exts|
    ensures res.0.pending.Some? ==>
      || (InActiveConversation(r) && res.0.pending == r.pending)
      || (|Matching(h, r.exts, input)| > 1 && res.0.pending == Some(Pending(input, Matching(h, r.exts, input))))
    ensures forall i :: 0 <= i < |r.exts| && r.active != Some(i) && i !in Matching(h, r.exts, input) ==>
      res.0.exts[i] == r.exts[i]
  {
    if InActiveConversation(r) then
      var a := r.active.value;
      var step := h.processFollowUp(r.exts[a], input);
      (r.(exts := r.exts[a := step.0]), step.1)
    else if r.pending.Some? then
      HandleFollowUp(h, r, input)
    else
      var m := Matching(h, r.exts, input);
      if |m| > 1 then
        DisambiguateIntent(r, input, m)
      else if |m| == 1 then
        var i := m[0];
        var step := h.processVoiceInput(r.exts[i], input);
        var r1 := r.(exts := r.exts[i := step.0]);
        if step.1.Raised? then
          (r1, step.1)
        else if Truthy(step.1.value) then
          (r1.(active := if step.0.conv.inConversation then Some(i) else r.active), step.1)
        else
          Abandon(r1)
      else
        Abandon(r)
  }

  /** `route_voice_input` with the disambiguation reply resolved as the
      comments of `handle_follow_up` describe; every other branch is the
      router as written. */
  function RouteResolving<S>(h: Hooks<S>, r: RouterState<S>, input: string): (res: (RouterState<S>, Outcome))
    requires r.Valid()
    ensures res.0.Valid()
    ensures |res.0.exts| == |r.exts|
    ensures res.0.pending.Some? ==> Route(h, r, input).0.pending == res.0.pending
  {
    if !InActiveConversation(r) && r.pending.Some? then ResolveDisambiguation(h, r, input)
    else Route(h, r, input)
  }
}
