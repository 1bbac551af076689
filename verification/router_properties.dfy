/** Properties of `route_voice_input`, one lemma per dispatch branch, in the
    order the router tries them. */
module RouterProperties {
  import opened Common
  import opened Text
  import opened Router

  /** An active extension that is still in conversation gets the utterance
      as a follow-up; the router's own fields do not change. */
  lemma ActiveConversationWins<S>(h: Hooks<S>, r: RouterState<S>, input: string)
    requires r.Valid() && InActiveConversation(r)
    ensures var a := r.active.value;
            var step := h.processFollowUp(r.exts[a], input);
            Route(h, r, input) == (r.(exts := r.exts[a := step.0]), step.1)
  {
  }

  /** In that branch no capability predicate and no initial-input handler is
      consulted: replacing them changes nothing. */
  lemma ActiveConversationIgnoresMatching<S>(h: Hooks<S>, r: RouterState<S>, input: string,
                                             c: (Ext<S>, string) -> bool,
                                             p: (Ext<S>, string) -> (Ext<S>, Outcome))
    requires r.Valid() && InActiveConversation(r)
    ensures Route(h, r, input) == Route(h.(canHandle := c, processVoiceInput := p), r, input)
  {
  }

  /** A pending disambiguation is always cleared by the next utterance
      (unless an active conversation takes it), no extension state changes,
      and the outcome is the raise or the re-prompt. */
  lemma PendingAlwaysCleared<S>(h: Hooks<S>, r: RouterState<S>, reply: string)
    requires r.Valid() && !InActiveConversation(r) && r.pending.Some?
    ensures var res := Route(h, r, reply);
            && res.0 == r.(pending := None)
            && (res.1 == Raised(ClearedPendingFault) || res.1 == Says(StillNotSureMessage))
  {
  }

  /** A reply that some candidate accepts makes routing raise; a reply that
      none accepts yields the fixed re-prompt. */
  lemma PendingOutcome<S>(h: Hooks<S>, r: RouterState<S>, reply: string)
    requires r.Valid() && !InActiveConversation(r) && r.pending.Some?
    ensures var cs := r.pending.value.candidates;
            (Route(h, r, reply).1.Raised? <==> exists k :: 0 <= k < |cs| && h.keywordInResponse(r.exts[cs[k]], reply))
    ensures var cs := r.pending.value.candidates;
            (Route(h, r, reply).1 == Says(StillNotSureMessage) <==> forall k :: 0 <= k < |cs| ==> !h.keywordInResponse(r.exts[cs[k]], reply))
  {
    var cs := r.pending.value.candidates;
    var res := Route(h, r, reply);
    assert res == HandleFollowUp(h, r, reply);
    if forall k :: 0 <= k < |cs| ==> !h.keywordInResponse(r.exts[cs[k]], reply) {
      assert !(exists k :: 0 <= k < |cs| && h.keywordInResponse(r.exts[cs[k]], reply));
    }
  }

  /** More than one match: the utterance and all matching extensions, in
      registration order, are stored, and the question names each of them
      in that order. */
  lemma AmbiguityStoresCandidates<S>(h: Hooks<S>, r: RouterState<S>, input: string)
    requires r.Valid() && !InActiveConversation(r) && r.pending.None?
    requires |Matching(h, r.exts, input)| > 1
    ensures var m := Matching(h, r.exts, input);
            var res := Route(h, r, input);
            && res.0 == r.(pending := Some(Pending(input, m)))
            && res.1 == Says(Prompt(Names(r.exts, m)))
            && (forall i :: 0 <= i < |r.exts| ==> (i in m <==> h.canHandle(r.exts[i], input)))
            && (forall k, l :: 0 <= k < l < |m| ==> m[k] < m[l])
  {
  }

  /** Two candidates: the question reads "Did you mean a A or a B?". */
  lemma PromptForTwo(a: string, b: string)
    ensures Prompt([a, b]) == "Did you mean a " + a + " or a " + b + "?"
  {
    assert Join([a, b], " or a ") == a + " or a " + Join([b], " or a ");
  }

  /** Each further candidate adds its name behind " or a ". */
  lemma {:induction false} PromptGrows(first: string, rest: seq<string>)
    requires rest != []
    ensures Prompt([first] + rest) == "Did you mean a " + first + " or a " + Join(rest, " or a ") + "?"
  {
    assert ([first] + rest)[1..] == rest;
  }

  /** Exactly one match with a truthy response: the response is returned,
      and the pointer moves to that extension exactly when it is now in
      conversation; otherwise the pointer stays where it was. */
  lemma SingleMatchResponds<S>(h: Hooks<S>, r: RouterState<S>, input: string)
    requires r.Valid() && !InActiveConversation(r) && r.pending.None?
    requires |Matching(h, r.exts, input)| == 1
    requires var i := Matching(h, r.exts, input)[0];
             var out := h.processVoiceInput(r.exts[i], input).1;
             out.Returned? && Truthy(out.value)
    ensures var i := Matching(h, r.exts, input)[0];
            var step := h.processVoiceInput(r.exts[i], input);
            var res := Route(h, r, input);
            && res.1 == step.1
            && res.0.exts == r.exts[i := step.0]
            && res.0.pending.None?
            && (step.0.conv.inConversation ==> res.0.active == Some(i))
            && (!step.0.conv.inConversation ==> res.0.active == r.active)
  {
  }

  /** Exactly one match whose response is falsy (`None` or `""`): the result
      is `None`, exactly as if nothing had matched, and any previously
      active extension is taken out of its conversation. */
  lemma FalsyResponseFallsThrough<S>(h: Hooks<S>, r: RouterState<S>, input: string)
    requires r.Valid() && !InActiveConversation(r) && r.pending.None?
    requires |Matching(h, r.exts, input)| == 1
    requires var i := Matching(h, r.exts, input)[0];
             var out := h.processVoiceInput(r.exts[i], input).1;
             out.Returned? && !Truthy(out.value)
    ensures var res := Route(h, r, input);
            && res.1 == Returned(None)
            && res.0.active.None?
            && (r.active.Some? ==> !res.0.exts[r.active.value].conv.inConversation)
  {
  }

  /** No match at all: the result is `None`; a previously set pointer is
      cleared and its extension leaves its conversation; nothing else
      changes. */
  lemma NoMatchAbandons<S>(h: Hooks<S>, r: RouterState<S>, input: string)
    requires r.Valid() && !InActiveConversation(r) && r.pending.None?
    requires Matching(h, r.exts, input) == []
    ensures var res := Route(h, r, input);
            && res.1 == Returned(None)
            && res.0.active.None? && res.0.pending.None?
            && (r.active.None? ==> res.0 == r)
            && (r.active.Some? ==>
                  var a := r.active.value;
                  && !res.0.exts[a].conv.inConversation
                  && res.0.exts[a].conv.context == r.exts[a].conv.context
                  && (forall i :: 0 <= i < |r.exts| && i != a ==> res.0.exts[i] == r.exts[i]))
  {
  }

  /** An exception from the single matching extension propagates; whatever
      that extension changed before raising is kept, and the router's own
      fields stay as they were. */
  lemma SingleMatchRaisePropagates<S>(h: Hooks<S>, r: RouterState<S>, input: string)
    requires r.Valid() && !InActiveConversation(r) && r.pending.None?
    requires |Matching(h, r.exts, input)| == 1
    requires var i := Matching(h, r.exts, input)[0];
             h.processVoiceInput(r.exts[i], input).1.Raised?
    ensures var i := Matching(h, r.exts, input)[0];
            var step := h.processVoiceInput(r.exts[i], input);
            Route(h, r, input) == (r.(exts := r.exts[i := step.0]), step.1)
  {
  }

  /** Registering extensions one after another lists them in registration
      order. */
  lemma {:induction false} RegistrationOrder<S>(r: RouterState<S>, es: seq<Ext<S>>)
    requires r.Valid()
    ensures RegisterAll(r, es).exts == r.exts + es
    decreases |es|
  {
    if es != [] {
      RegistrationOrder(AddExtension(r, es[0]), es[1..]);
      assert r.exts + [es[0]] + es[1..] == r.exts + es;
    }
  }

  function RegisterAll<S>(r: RouterState<S>, es: seq<Ext<S>>): (r': RouterState<S>)
    requires r.Valid()
    ensures r'.Valid()
    decreases |es|
  {
    if es == [] then r else RegisterAll(AddExtension(r, es[0]), es[1..])
  }

  /** The reply that makes the router as written raise is exactly the one
      the resolving router hands to the chosen candidate: that candidate
      processes the ORIGINAL utterance, and the pending record is gone. */
  lemma ResolvedReplyRunsOriginalInput<S>(h: Hooks<S>, r: RouterState<S>, reply: string, k: nat)
    requires r.Valid() && !InActiveConversation(r) && r.pending.Some?
    requires FirstKeywordMatch(h, r.exts, r.pending.value.candidates, reply) == Some(k)
    ensures Route(h, r, reply).1 == Raised(ClearedPendingFault)
    ensures var p := r.pending.value;
            var i := p.candidates[k];
            var step := h.processVoiceInput(r.exts[i], p.originalInput);
            RouteResolving(h, r, reply) == (r.(exts := r.exts[i := step.0], pending := None), step.1)
  {
  }

  /** On every other utterance the two routers agree. */
  lemma RoutesAgreeUnlessResolved<S>(h: Hooks<S>, r: RouterState<S>, input: string)
    requires r.Valid()
    requires InActiveConversation(r) || r.pending.None? ||
             FirstKeywordMatch(h, r.exts, r.pending.value.candidates, input).None?
    ensures RouteResolving(h, r, input) == Route(h, r, input)
  {
  }
}
