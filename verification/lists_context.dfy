/** The list skill's intent extractor (`Context.extract_from_input`). The
    regular expressions are abstract: each is a function from the utterance
    to its capture groups, `None` when the pattern does not match. */
module ListContext {
  import opened Common
  import opened Text

  datatype Action = Read | Add | Remove | Create | Delete

  /** The extractor's slots, kept between utterances until the extension
      replaces the whole object. */
  datatype Context = Context(
    voiceInput: Option<string>,
    action: Option<Action>,
    item: Option<string>,
    list: Option<string>)

  /** A freshly constructed `Context`. */
  const Fresh := Context(None, None, None, None)

  /** The capture groups of each pattern of the extractor. */
  datatype Patterns = Patterns(
    read: string -> Option<string>,             // group 2 of the read pattern
    add: string -> Option<(string, string)>,    // (item, list) of the add pattern
    remove: string -> Option<(string, string)>, // (item, list) of the remove pattern
    createFirst: string -> Option<string>,      // group 1 of the first create pattern
    createSecond: string -> Option<string>,     // group 1 of the second create pattern
    delete: string -> Option<string>)           // group 1 of the delete pattern

  /** The keyword that selects an action. */
  function Keyword(a: Action): string {
    match a
    case Read => "read"
    case Add => "add"
    case Remove => "remove"
    case Create => "create"
    case Delete => "delete"
  }

  /** The order in which `extraction_methods` is scanned. */
  const KeywordOrder := [Add, Remove, Create, Delete]

  /** Whether an action's extractor sets the item slot. */
  predicate SetsItem(a: Action) {
    a == Add || a == Remove
  }

  /** The item and list a two-slot extractor produces: its groups on a
      match, `(None, None)` otherwise. */
  function PairSlots(m: Option<(string, string)>): (Option<string>, Option<string>) {
    match m
    case Some(g) => (Some(g.0), Some(g.1))
    case None => (None, None)
  }

  /** The list slot written by the extractor of `a`. */
  function ListSlot(p: Patterns, input: string, a: Action): Option<string> {
    match a
    case Add => PairSlots(p.add(input)).1
    case Remove => PairSlots(p.remove(input)).1
    case Create =>
      if p.createFirst(input).Some? then p.createFirst(input) else p.createSecond(input)
    case Delete => p.delete(input)
    case Read => p.read(input)
  }

  /** The item slot written by the extractor of `a` (only add and remove
      write it). */
  function ItemSlot(p: Patterns, input: string, a: Action): Option<string>
    requires SetsItem(a)
  {
    if a == Add then PairSlots(p.add(input)).0 else PairSlots(p.remove(input)).0
  }

  /** One of `_extract_add_context` ... `_extract_delete_context`, after the
      scan has set the action. */
  function RunExtractor(p: Patterns, ctx: Context, input: string, a: Action): (r: Context)
    requires a != Read
    ensures r.voiceInput == ctx.voiceInput && r.action == ctx.action
    ensures r.list == ListSlot(p, input, a)
    ensures SetsItem(a) ==> r.item == ItemSlot(p, input, a)
    ensures !SetsItem(a) ==> r.item == ctx.item
  {
    match a
    case Add =>
      var s := PairSlots(p.add(input));
      ctx.(item := s.0, list := s.1)
    case Remove =>
      var s := PairSlots(p.remove(input));
      ctx.(item := s.0, list := s.1)
    case Create =>
      var m := if p.createFirst(input).Some? then p.createFirst(input) else p.createSecond(input);
      ctx.(list := m)
    case Delete =>
      ctx.(list := p.delete(input))
  }

  /** The keywords of `kws` that occur as whole words, in order. */
  function Present(kws: seq<Action>, words: seq<string>): (ps: seq<Action>)
    ensures forall k :: 0 <= k < |ps| ==> ps[k] in kws && Keyword(ps[k]) in words
    ensures forall k :: 0 <= k < |kws| && Keyword(kws[k]) in words ==> kws[k] in ps
  {
    if kws == [] then []
    else (if Keyword(kws[0]) in words then [kws[0]] else []) + Present(kws[1..], words)
  }

  /** The `for action_key in extraction_methods` loop: no `break`, so every
      keyword present runs its extractor, each overwriting the action. */
  function ScanKeywords(p: Patterns, ctx: Context, input: string, words: seq<string>, kws: seq<Action>): (r: Context)
    requires Read !in kws
    ensures r.voiceInput == ctx.voiceInput
    ensures r.action == ctx.action || (r.action.Some? && r.action.value in kws)
    decreases |kws|
  {
    if kws == [] then ctx
    else
      var ctx1 := if Keyword(kws[0]) in words then RunExtractor(p, ctx.(action := Some(kws[0])), input, kws[0]) else ctx;
      ScanKeywords(p, ctx1, input, words, kws[1..])
  }

  /** `extract_from_input`: the read pattern first, then the keyword scan
      over the whitespace-split words. */
  function ExtractFromInput(p: Patterns, ctx: Context, input: string): (r: Context)
    ensures r.voiceInput == Some(input)
    ensures p.read(input).Some? ==> r == ctx.(voiceInput := Some(input), action := Some(Read), list := p.read(input))
    ensures p.read(input).None? ==> r.action == ctx.action || (r.action.Some? && r.action.value in KeywordOrder)
  {
    var ctx0 := ctx.(voiceInput := Some(input));
    if p.read(input).Some? then
      ctx0.(action := Some(Read), list := p.read(input))
    else
      ScanKeywords(p, ctx0, input, Words(input), KeywordOrder)
  }

  /** With no keyword present the scan changes nothing. */
  lemma {:induction false} ScanWithoutKeywords(p: Patterns, ctx: Context, input: string, words: seq<string>, kws: seq<Action>)
    requires Read !in kws && Present(kws, words) == []
    ensures ScanKeywords(p, ctx, input, words, kws) == ctx
    decreases |kws|
  {
    if kws != [] {
      var k0 := kws[0];
      assert Present(kws, words) == (if Keyword(k0) in words then [k0] else []) + Present(kws[1..], words);
      ScanWithoutKeywords(p, ctx, input, words, kws[1..]);
    }
  }

  /** With keywords present, the last one present decides the action and the
      list slot, and the item slot comes from the last add/remove present
      (or keeps its previous value when neither is). */
  lemma {:induction false} ScanLastKeywordWins(p: Patterns, ctx: Context, input: string, words: seq<string>, kws: seq<Action>)
    requires Read !in kws && Present(kws, words) != []
    ensures var ps := Present(kws, words);
            var last := ps[|ps| - 1];
            var r := ScanKeywords(p, ctx, input, words, kws);
            && r.action == Some(last)
            && r.list == ListSlot(p, input, last)
            && r.voiceInput == ctx.voiceInput
    decreases |kws|
  {
    var ps := Present(kws, words);
    var head := if Keyword(kws[0]) in words then [kws[0]] else [];
    assert ps == head + Present(kws[1..], words);
    var ctx1 := if Keyword(kws[0]) in words then RunExtractor(p, ctx.(action := Some(kws[0])), input, kws[0]) else ctx;
    assert ScanKeywords(p, ctx, input, words, kws) == ScanKeywords(p, ctx1, input, words, kws[1..]);
    if Present(kws[1..], words) == [] {
      ScanWithoutKeywords(p, ctx1, input, words, kws[1..]);
    } else {
      ScanLastKeywordWins(p, ctx1, input, words, kws[1..]);
    }
  }

  /** The add/remove keywords among those present, in order. */
  function ItemSetters(ps: seq<Action>): (qs: seq<Action>)
    ensures forall k :: 0 <= k < |qs| ==> SetsItem(qs[k]) && qs[k] in ps
  {
    if ps == [] then []
    else (if SetsItem(ps[0]) then [ps[0]] else []) + ItemSetters(ps[1..])
  }

  /** The item slot after the scan: written by the last add/remove present,
      untouched when none is present. */
  lemma {:induction false} ScanItemSlot(p: Patterns, ctx: Context, input: string, words: seq<string>, kws: seq<Action>)
    requires Read !in kws
    ensures var qs := ItemSetters(Present(kws, words));
            var r := ScanKeywords(p, ctx, input, words, kws);
            && (qs == [] ==> r.item == ctx.item)
            && (qs != [] ==> r.item == ItemSlot(p, input, qs[|qs| - 1]))
    decreases |kws|
  {
    if kws != [] {
      var ctx1 := if Keyword(kws[0]) in words then RunExtractor(p, ctx.(action := Some(kws[0])), input, kws[0]) else ctx;
      ScanItemSlot(p, ctx1, input, words, kws[1..]);
      var head := if Keyword(kws[0]) in words then [kws[0]] else [];
      var ps := Present(kws, words);
      assert ps == head + Present(kws[1..], words);
      ItemSettersAppend(head, Present(kws[1..], words));
    }
  }

  lemma {:induction false} ItemSettersAppend(a: seq<Action>, b: seq<Action>)
    ensures ItemSetters(a + b) == ItemSetters(a) + ItemSetters(b)
    decreases |a|
  {
    if a != [] {
      var head := if SetsItem(a[0]) then [a[0]] else [];
      assert (a + b)[0] == a[0] && (a + b)[1..] == a[1..] + b;
      assert ItemSetters(a + b) == head + ItemSetters(a[1..] + b);
      ItemSettersAppend(a[1..], b);
      assert ItemSetters(a) == head + ItemSetters(a[1..]);
    } else {
      assert a + b == b;
    }
  }

  /** ASCII letters only: a cheap sufficient test for a word without
      whitespace. */
  predicate Alphabetic(w: string) {
    forall i :: 0 <= i < |w| ==> 'a' <= w[i] <= 'z' || 'A' <= w[i] <= 'Z'
  }

  /** A phrase of letter-only words joined by single spaces splits back
      into those words. */
  lemma SplitPhrase(ws: seq<string>, phrase: string)
    requires forall k :: 0 <= k < |ws| ==> ws[k] != [] && Alphabetic(ws[k])
    requires Join(ws, " ") == phrase
    ensures Words(phrase) == ws
  {
    forall k | 0 <= k < |ws| ensures NoSpace(ws[k]) {
      forall i | 0 <= i < |ws[k]| ensures !IsSpace(ws[k][i]) {
        assert 'a' <= ws[k][i] <= 'z' || 'A' <= ws[k][i] <= 'Z';
      }
    }
    WordsOfJoin(ws);
  }

  lemma AddressPhrase()
    ensures Words("address the list") == ["address", "the", "list"]
  {
    var ws := ["address", "the", "list"];
    assert Join(ws[2..], " ") == "list";
    assert Join(ws[1..], " ") == "the list";
    SplitPhrase(ws, "address the list");
  }

  lemma MilkPhrase(verb: string)
    requires verb == "add" || verb == "Add"
    ensures Words(verb + " milk to the list") == [verb, "milk", "to", "the", "list"]
  {
    var ws := [verb, "milk", "to", "the", "list"];
    MilkTail();
    assert ws[1..] == ["milk", "to", "the", "list"];
    assert Join(ws, " ") == verb + " " + "milk to the list";
    SplitPhrase(ws, verb + " milk to the list");
  }

  lemma MilkTail()
    ensures Join(["milk", "to", "the", "list"], " ") == "milk to the list"
  {
    var ws := ["milk", "to", "the", "list"];
    assert Join(ws[3..], " ") == "list";
    assert Join(ws[2..], " ") == "the list";
    assert Join(ws[1..], " ") == "to the list";
  }

  /** Keyword detection compares whole words exactly: "add" inside
      "address" does not select adding. */
  lemma AddressIsNotAdd()
    ensures Add !in Present(KeywordOrder, Words("address the list"))
  {
    AddressPhrase();
  }

  /** Keyword detection is case-sensitive: "add milk to the list" selects
      adding, "Add milk to the list" does not. */
  lemma AddKeywordIsCaseSensitive(verb: string)
    requires verb == "add" || verb == "Add"
    ensures Add in Present(KeywordOrder, Words(verb + " milk to the list")) <==> verb == "add"
  {
    MilkPhrase(verb);
    var ws := [verb, "milk", "to", "the", "list"];
    assert Keyword(Add) in ws <==> verb == "add";
  }

  /** In "add milk to the list" adding is the only action named. */
  lemma AddAsWordIsAdd(verb: string)
    requires verb == "add"
    ensures Present(KeywordOrder, Words(verb + " milk to the list")) == [Add]
  {
    MilkPhrase(verb);
    OnlyAddPresent([verb, "milk", "to", "the", "list"]);
  }

  lemma OnlyAddPresent(ws: seq<string>)
    requires Keyword(Add) in ws
    requires Keyword(Remove) !in ws && Keyword(Create) !in ws && Keyword(Delete) !in ws
    ensures Present(KeywordOrder, ws) == [Add]
  {
    assert Present(KeywordOrder[3..], ws) == [];
    assert Present(KeywordOrder[2..], ws) == [];
    assert Present(KeywordOrder[1..], ws) == [];
  }

  /** Extraction as a whole: a read match short-circuits the scan and
      leaves the item alone; otherwise the last keyword present wins, and
      with no keyword every slot keeps its previous value. */
  lemma ExtractionOutcome(p: Patterns, ctx: Context, input: string)
    ensures var r := ExtractFromInput(p, ctx, input);
            var ps := Present(KeywordOrder, Words(input));
            && (p.read(input).Some? ==> r.action == Some(Read) && r.list == p.read(input) && r.item == ctx.item)
            && (p.read(input).None? && ps == [] ==>
                  r.action == ctx.action && r.item == ctx.item && r.list == ctx.list)
            && (p.read(input).None? && ps != [] ==>
                  r.action == Some(ps[|ps| - 1]) && r.list == ListSlot(p, input, ps[|ps| - 1]))
  {
    if p.read(input).None? {
      var ctx0 := ctx.(voiceInput := Some(input));
      assert ExtractFromInput(p, ctx, input) == ScanKeywords(p, ctx0, input, Words(input), KeywordOrder);
      ScanOutcome(p, ctx0, input, Words(input), KeywordOrder);
    }
  }

  /** The two scan lemmas together, for any keyword order without `Read`. */
  lemma ScanOutcome(p: Patterns, ctx: Context, input: string, words: seq<string>, kws: seq<Action>)
    requires Read !in kws
    ensures var r := ScanKeywords(p, ctx, input, words, kws);
            var ps := Present(kws, words);
            && (ps == [] ==> r == ctx)
            && (ps != [] ==> r.action == Some(ps[|ps| - 1]) && r.list == ListSlot(p, input, ps[|ps| - 1]))
  {
    if Present(kws, words) == [] {
      ScanWithoutKeywords(p, ctx, input, words, kws);
    } else {
      ScanLastKeywordWins(p, ctx, input, words, kws);
    }
  }
}
