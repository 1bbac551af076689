/** The router test console (`ExtentionRouterTesterCLI.py`): a router with
    the list skill as its only extension, and the console loop that feeds
    it one utterance per line. With a single extension there is never
    anything to disambiguate, so the router passes each utterance either to
    the list skill or to nobody. */
module TesterCli {
  import opened Common
  import opened Text
  import opened Conversation
  import opened Router
  import opened ListContext
  import opened Lists

  const ListExtensionName := "ListExtension"
  const NoResponseLine := "No response from extension."
  const ErrorPrefix := "[SYS]: There was an unexpected error: "
  const ReplyPrefix := "[SYS]: "

  /** The list skill plugged into the router. `ListExtension` does not
      define `keyword_in_response`; with one extension the router never
      asks for it, so any predicate stands in for it. */
  function ListHooks(p: Patterns): (h: Hooks<ListState>)
    ensures forall e, input :: h.canHandle(e, input) == Lists.CanHandleInput(input)
    ensures forall e, input :: h.processFollowUp(e, input) == (e, Returned(None))
    ensures forall e: Ext<ListState>, input ::
      var step := Lists.ProcessVoiceInput(p, e.local, input);
      h.processVoiceInput(e, input) == (e.(local := step.0), step.1)
  {
    Hooks(
      (e: Ext<ListState>, input: string) => Lists.CanHandleInput(input),
      (e: Ext<ListState>, input: string) =>
        var step := Lists.ProcessVoiceInput(p, e.local, input); (e.(local := step.0), step.1),
      (e: Ext<ListState>, input: string) => (e, Returned(None)),
      (e: Ext<ListState>, input: string) => false)
  }

  /** `create_router`: an empty router with the list skill registered; the
      store is whatever was loaded from disk. */
  function CreateRouter(store: Store): (r: RouterState<ListState>)
    ensures r.Valid()
    ensures OnlyLists(r) && r.exts[0].local == ListState(store, Fresh)
  {
    AddExtension(Router.Empty(), Ext(ListExtensionName, Idle, ListState(store, Fresh)))
  }

  /** The shape the console's router keeps between lines: the list skill
      alone, never in a conversation, nothing pending and no pointer. */
  predicate OnlyLists(r: RouterState<ListState>) {
    && |r.exts| == 1
    && r.exts[0].name == ListExtensionName
    && r.exts[0].conv == Idle
    && r.active.None?
    && r.pending.None?
  }

  /** What the console does with one line. */
  datatype Line = Exit | Echo(text: string) | Crash(fault: Fault)

  /** One iteration of `test_router`: "exit" in any ASCII case stops the
      loop; a `ValueError` is reported and the loop goes on; any other
      exception ends the program; a falsy response is reported as such. */
  function ConsoleTurn(p: Patterns, r: RouterState<ListState>, input: string): (res: (RouterState<ListState>, Line))
    requires r.Valid()
    ensures res.1.Exit? <==> Lower(input) == "exit"
    ensures res.1.Exit? ==> res.0 == r
  {
    if Lower(input) == "exit" then (r, Exit)
    else
      var routed := Route(ListHooks(p), r, input);
      var line :=
        match routed.1
        case Raised(ValueError(m)) => Echo(ErrorPrefix + m)
        case Raised(f) => Crash(f)
        case Returned(v) => if Truthy(v) then Echo(ReplyPrefix + v.value) else Echo(NoResponseLine);
      (routed.0, line)
  }

  /** With the list skill alone, routing is transparent: an utterance
      without "list" reaches nobody and changes nothing, and any other
      utterance is exactly one call of the skill's `process_voice_input`.
      The router keeps its shape either way. */
  lemma SingleSkillRouting(p: Patterns, r: RouterState<ListState>, input: string)
    requires OnlyLists(r)
    ensures var res := Route(ListHooks(p), r, input);
            && OnlyLists(res.0)
            && (!Contains(input, "list") ==> res == (r, Returned(None)))
            && (Contains(input, "list") ==>
                  var step := Lists.ProcessVoiceInput(p, r.exts[0].local, input);
                  res.0.exts[0].local == step.0 && res.1 == step.1)
  {
    var h := ListHooks(p);
    CanHandleIffContainsList(input);
    assert MatchingBelow(h, r.exts, input, 0) == [];
    assert Matching(h, r.exts, input) == if Contains(input, "list") then [0] else [];
  }

  /** The console never crashes and never stops on its own: every line
      other than "exit" is echoed, as the skill's reply, as its
      `ValueError` message, or as "no response" for an utterance without
      "list". */
  lemma ConsoleEchoesSkill(p: Patterns, r: RouterState<ListState>, input: string)
    requires OnlyLists(r) && Lower(input) != "exit"
    ensures var res := ConsoleTurn(p, r, input);
            && OnlyLists(res.0)
            && res.1.Echo?
            && (!Contains(input, "list") ==> res == (r, Echo(NoResponseLine)))
            && (Contains(input, "list") ==>
                  var step := Lists.ProcessVoiceInput(p, r.exts[0].local, input);
                  && res.0.exts[0].local == step.0
                  && (step.1.Raised? ==> res.1 == Echo(ErrorPrefix + step.1.fault.message))
                  && (step.1.Returned? ==> res.1 == Echo(ReplyPrefix + step.1.value.value)))
  {
    SingleSkillRouting(p, r, input);
    if Contains(input, "list") {
      var step := Lists.ProcessVoiceInput(p, r.exts[0].local, input);
      if step.1.Raised? {
        assert Validate(ExtractFromInput(p, r.exts[0].local.ctx, input)).Some?;
        assert step.1.fault.ValueError?;
      }
    }
  }

  /** The `while True` loop of `test_router` over a finite sequence of input
      lines: each line is handled in turn until "exit" or a crash, and the
      lines printed so far are collected. */
  function RunConsole(p: Patterns, r: RouterState<ListState>, lines: seq<string>): (out: (RouterState<ListState>, seq<Line>))
    requires r.Valid()
    ensures |out.1| <= |lines|
    ensures forall k :: 0 <= k < |out.1| - 1 ==> out.1[k].Echo?
    decreases |lines|
  {
    if lines == [] then (r, [])
    else
      var turn := ConsoleTurn(p, r, lines[0]);
      if !turn.1.Echo? then (turn.0, [turn.1])
      else
        var rest := RunConsole(p, turn.0, lines[1..]);
        (rest.0, [turn.1] + rest.1)
  }

  /** A console session started from `create_router` never crashes: it
      echoes one line per input until the first "exit", and the router
      keeps its one-extension shape throughout. */
  lemma {:induction false} SessionNeverCrashes(p: Patterns, r: RouterState<ListState>, lines: seq<string>)
    requires OnlyLists(r)
    ensures var out := RunConsole(p, r, lines);
            && OnlyLists(out.0)
            && (forall k :: 0 <= k < |out.1| ==> !out.1[k].Crash?)
            && ((forall k :: 0 <= k < |lines| ==> Lower(lines[k]) != "exit") ==> |out.1| == |lines|)
    decreases |lines|
  {
    if lines != [] && Lower(lines[0]) != "exit" {
      ConsoleEchoesSkill(p, r, lines[0]);
      var turn := ConsoleTurn(p, r, lines[0]);
      if turn.1.Echo? {
        SessionNeverCrashes(p, turn.0, lines[1..]);
        NoExitInTail(lines);
      }
    }
  }

  lemma NoExitInTail(lines: seq<string>)
    requires lines != []
    ensures (forall k :: 0 <= k < |lines| ==> Lower(lines[k]) != "exit") ==>
            forall k :: 0 <= k < |lines[1..]| ==> Lower(lines[1..][k]) != "exit"
  {
    if forall k :: 0 <= k < |lines| ==> Lower(lines[k]) != "exit" {
      forall k | 0 <= k < |lines[1..]| ensures Lower(lines[1..][k]) != "exit" {
        assert lines[1..][k] == lines[k + 1];
      }
    }
  }

  /** `CreateRouter` starts a session that never crashes. */
  lemma FreshConsoleNeverCrashes(p: Patterns, store: Store, lines: seq<string>)
    ensures var out := RunConsole(p, CreateRouter(store), lines);
            forall k :: 0 <= k < |out.1| ==> !out.1[k].Crash?
  {
    SessionNeverCrashes(p, CreateRouter(store), lines);
  }
}
