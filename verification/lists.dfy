/** The list skill (`ListExtension`): an in-memory store of named lists of
    items, and the handling of one utterance against it. Saving the store
    to disk is left out; every `save()` is a no-op here. */
module Lists {
  import opened Common
  import opened Text
  import opened ListContext

  type Store = map<string, seq<string>>

  /** The skill's own state: the store and the extractor's slots. */
  datatype ListState = ListState(store: Store, ctx: Context)

  const ItemNotFound := "Tell the user that the item is not found in list. Do not respond with anything else."
  const ListNotFound := "Tell the user that the list was not found. Do not respond with anything else."
  const ListAlreadyExists := "Tell the user that the list already exists. Do not respond with anything else."
  const ListCreated := "Tell the user that the list has been created. Do not respond with anything else."
  const ListRemoved := "Tell the user that the list has been removed. Do not respond with anything else."
  const ItemAdded := "Tell the user that the item has been added to the list. Do not respond with anything else."
  const ItemRemoved := "Tell the user that the item has been removed from the list. Do not respond with anything else."

  const NoActionFault := ValueError("No action found in context.")
  const NoListFault := ValueError("No list found in context.")
  const NoItemFault := ValueError("No item found in context.")

  /** `can_handle_input`: "list" or "lists" occurs in the utterance. */
  predicate CanHandleInput(input: string) {
    Contains(input, "list") || Contains(input, "lists")
  }

  /** Checking for "lists" adds nothing: the skill answers exactly the
      utterances containing "list", case-sensitively. */
  lemma CanHandleIffContainsList(input: string)
    ensures CanHandleInput(input) <==> Contains(input, "list")
  {
    if Contains(input, "lists") {
      ContainsPrefix(input, "lists", 4);
      assert "lists"[..4] == "list";
    }
  }

  /** `list.index(x)`: the position of the first occurrence. */
  function IndexOf(s: seq<string>, x: string): (i: nat)
    requires x in s
    ensures i < |s| && s[i] == x && x !in s[..i]
  {
    if s[0] == x then 0
    else
      var j := IndexOf(s[1..], x);
      assert s[..j + 1] == [s[0]] + s[1..][..j];
      j + 1
  }

  /** `list.remove(x)`: the first occurrence is removed, nothing else. */
  function RemoveFirst(s: seq<string>, x: string): (r: seq<string>)
    requires x in s
    ensures |r| == |s| - 1
    ensures multiset(r) == multiset(s) - multiset{x}
    ensures s[..IndexOf(s, x)] == r[..IndexOf(s, x)] && s[IndexOf(s, x) + 1..] == r[IndexOf(s, x)..]
  {
    var i := IndexOf(s, x);
    assert s == s[..i] + [s[i]] + s[i + 1..];
    s[..i] + s[i + 1..]
  }

  /** `add_item`: an existing list gets the item at its end; a missing list
      is reported and the store is left alone. Other lists never change. */
  function AddItem(store: Store, list: string, item: string): (r: (Store, string))
    ensures r.1 == ItemAdded <==> list in store
    ensures list !in store ==> r == (store, ListNotFound)
    ensures list in store ==> r.0.Keys == store.Keys && r.0[list] == store[list] + [item]
    ensures forall k :: k in store && k != list ==> k in r.0 && r.0[k] == store[k]
  {
    if list in store then (store[list := store[list] + [item]], ItemAdded)
    else (store, ListNotFound)
  }

  /** `remove_item`: the first occurrence of the item goes; a missing list
      or item is reported and the store is left alone. */
  function RemoveItem(store: Store, list: string, item: string): (r: (Store, string))
    ensures r.1 == ItemRemoved <==> list in store && item in store[list]
    ensures list !in store ==> r == (store, ListNotFound)
    ensures list in store && item !in store[list] ==> r == (store, ItemNotFound)
    ensures list in store && item in store[list] ==>
      r.0.Keys == store.Keys && r.0[list] == RemoveFirst(store[list], item)
    ensures list in store && item in store[list] ==>
      multiset(r.0[list]) == multiset(store[list]) - multiset{item}
    ensures forall k :: k in store && k != list ==> k in r.0 && r.0[k] == store[k]
  {
    if list in store then
      if item in store[list] then (store[list := RemoveFirst(store[list], item)], ItemRemoved)
      else (store, ItemNotFound)
    else (store, ListNotFound)
  }

  /** `create_list`: a new name gets an empty list; an existing one is
      reported and kept as it is. */
  function CreateList(store: Store, list: string): (r: (Store, string))
    ensures r.1 == ListCreated <==> list !in store
    ensures list in store ==> r == (store, ListAlreadyExists)
    ensures list !in store ==> r.0.Keys == store.Keys + {list} && r.0[list] == []
    ensures forall k :: k in store && k != list ==> k in r.0 && r.0[k] == store[k]
  {
    if list in store then (store, ListAlreadyExists)
    else (store[list := []], ListCreated)
  }

  /** `remove_list`: the name and its items go; a missing name is reported. */
  function RemoveList(store: Store, list: string): (r: (Store, string))
    ensures r.1 == ListRemoved <==> list in store
    ensures list !in store ==> r == (store, ListNotFound)
    ensures r.0.Keys == store.Keys - {list}
    ensures forall k :: k in r.0 ==> r.0[k] == store[k]
  {
    if list in store then (store - {list}, ListRemoved)
    else (store, ListNotFound)
  }

  /** Adding an item the list did not hold and then removing it gives the
      original store back. */
  lemma {:induction false} AddThenRemoveRestores(store: Store, list: string, item: string)
    requires list in store && item !in store[list]
    ensures RemoveItem(AddItem(store, list, item).0, list, item) == (store, ItemRemoved)
  {
    var s := store[list];
    var added := AddItem(store, list, item).0;
    assert added[list] == s + [item];
    var i := IndexOf(s + [item], item);
    assert forall j :: 0 <= j < |s| ==> (s + [item])[j] == s[j];
    assert i == |s|;
    assert RemoveFirst(s + [item], item) == s;
    assert added[list := s] == store;
  }

  /** Creating a list that did not exist and removing it again gives the
      original store back. */
  lemma CreateThenRemoveRestores(store: Store, list: string)
    requires list !in store
    ensures RemoveList(CreateList(store, list).0, list) == (store, ListRemoved)
  {
    assert CreateList(store, list).0 - {list} == store;
  }

  /** `_handle_request`: the store operation selected by the action. Its
      caller has already ensured the list, and for add/remove the item, are
      present. A read action selects nothing (`None`). */
  function HandleRequest(store: Store, ctx: Context): (r: (Store, Option<string>))
    requires ctx.list.Some?
    requires ctx.action.Some? && SetsItem(ctx.action.value) ==> ctx.item.Some?
    ensures r.1.None? <==> ctx.action.None? || ctx.action == Some(Read)
    ensures r.1.None? ==> r.0 == store
    ensures ctx.action == Some(Add) ==>
      var a := AddItem(store, ctx.list.value, ctx.item.value); r == (a.0, Some(a.1))
    ensures ctx.action == Some(Remove) ==>
      var a := RemoveItem(store, ctx.list.value, ctx.item.value); r == (a.0, Some(a.1))
    ensures ctx.action == Some(Create) ==>
      var a := CreateList(store, ctx.list.value); r == (a.0, Some(a.1))
    ensures ctx.action == Some(Delete) ==>
      var a := RemoveList(store, ctx.list.value); r == (a.0, Some(a.1))
    ensures forall k :: k in store && k != ctx.list.value ==> k in r.0 && r.0[k] == store[k]
  {
    match ctx.action
    case Some(Add) => var s := AddItem(store, ctx.list.value, ctx.item.value); (s.0, Some(s.1))
    case Some(Remove) => var s := RemoveItem(store, ctx.list.value, ctx.item.value); (s.0, Some(s.1))
    case Some(Create) => var s := CreateList(store, ctx.list.value); (s.0, Some(s.1))
    case Some(Delete) => var s := RemoveList(store, ctx.list.value); (s.0, Some(s.1))
    case _ => (store, None)
  }

  /** Python's `repr` of a list of plain strings, as interpolated into the
      read-back message: bracketed, each item in single quotes. */
  function Repr(items: seq<string>): (r: string)
    ensures |r| >= 2 && r[0] == '[' && r[|r| - 1] == ']'
    ensures items == [] <==> r == "[]"
  {
    "[" + Join(Quoted(items), ", ") + "]"
  }

  function Quoted(items: seq<string>): (r: seq<string>)
    ensures |r| == |items|
    ensures forall k :: 0 <= k < |items| ==> r[k] == "'" + items[k] + "'"
  {
    if items == [] then [] else ["'" + items[0] + "'"] + Quoted(items[1..])
  }

  const ReadBackPrefix := "Read back the user the items in the list: "
  const NoSuchListPrefix := "Tell the user they don't have a '"

  /** The reply to reading an existing list: the fixed instruction, then
      the list's `repr`. */
  function ReadBack(items: seq<string>): (r: string)
    ensures |r| > |ReadBackPrefix| && r[..|ReadBackPrefix|] == ReadBackPrefix
    ensures r[|ReadBackPrefix|..] == Repr(items)
  {
    ReadBackPrefix + Repr(items)
  }

  /** The reply to reading a missing list: the list's name, quoted. */
  function NoSuchList(list: string): (r: string)
    ensures |r| == |NoSuchListPrefix| + |list| + 7
    ensures r[..|NoSuchListPrefix|] == NoSuchListPrefix
    ensures r[|NoSuchListPrefix|..|NoSuchListPrefix| + |list|] == list
    ensures r[|NoSuchListPrefix| + |list|..] == "' list."
  {
    NoSuchListPrefix + list + "' list."
  }

  /** The answer to a read: the list read back, or the list named as missing. */
  function ReadReply(store: Store, list: string): (r: string)
    ensures list in store ==> r == ReadBack(store[list])
    ensures list !in store ==> r == NoSuchList(list)
  {
    if list in store then ReadBack(store[list]) else NoSuchList(list)
  }

  /** A read of an existing list, even an empty one, never looks like a
      read of a missing list. */
  lemma ReadRepliesDiffer(items: seq<string>, list: string)
    ensures ReadBack(items) != NoSuchList(list)
  {
    assert ReadBack(items)[0] == 'R';
    assert NoSuchList(list)[0] == 'T';
  }

  /** The read-back of a two-item list, as Python prints it. */
  lemma ReadBackOfTwo()
    ensures ReadBack(["milk", "eggs"]) == "Read back the user the items in the list: ['milk', 'eggs']"
  {
    var q := Quoted(["milk", "eggs"]);
    assert q[0] == "'milk'" && q[1] == "'eggs'";
    assert q == ["'milk'", "'eggs'"];
    assert Join(["'milk'", "'eggs'"], ", ") == "'milk', 'eggs'";
  }

  /** The validation of `process_voice_input`: the exception it raises for
      extracted slots, or `None` when they pass. */
  function Validate(ctx: Context): (f: Option<Fault>)
    ensures f.None? <==> ctx.action.Some? && Truthy(ctx.list) && (SetsItem(ctx.action.value) ==> Truthy(ctx.item))
    ensures ctx.action.None? ==> f == Some(NoActionFault)
    ensures ctx.action.Some? && !Truthy(ctx.list) ==> f == Some(NoListFault)
    ensures ctx.action.Some? && Truthy(ctx.list) && SetsItem(ctx.action.value) && !Truthy(ctx.item) ==>
      f == Some(NoItemFault)
  {
    if ctx.action.None? then Some(NoActionFault)
    else if !Truthy(ctx.list) then Some(NoListFault)
    else if !Truthy(ctx.item) && SetsItem(ctx.action.value) then Some(NoItemFault)
    else None
  }

  /** The part of `process_voice_input` after extraction: validate the
      slots, then read back or perform the action. */
  function Respond(st: ListState, ctx: Context): (r: (ListState, Outcome))
    ensures r.1.Raised? <==> Validate(ctx).Some?
    ensures r.1.Raised? ==> r.0 == st.(ctx := ctx) && r.1.fault == Validate(ctx).value
    ensures !r.1.Raised? && ctx.action == Some(Read) ==> r.0 == st.(ctx := ctx)
    ensures !r.1.Raised? && ctx.action != Some(Read) ==> r.0.ctx == Fresh
    ensures !r.1.Raised? ==> Truthy(r.1.value)
    ensures !r.1.Raised? && ctx.action == Some(Read) ==>
      r.1 == Says(ReadReply(st.store, ctx.list.value))
    ensures !r.1.Raised? && ctx.action != Some(Read) ==>
      var h := HandleRequest(st.store, ctx); r.0.store == h.0 && r.1 == Returned(h.1)
    ensures forall k :: k in st.store && Some(k) != ctx.list ==> k in r.0.store && r.0.store[k] == st.store[k]
  {
    match Validate(ctx)
    case Some(f) => (st.(ctx := ctx), Raised(f))
    case None =>
      var list := ctx.list.value;
      if ctx.action == Some(Read) then
        (st.(ctx := ctx), Says(ReadReply(st.store, list)))
      else
        var h := HandleRequest(st.store, ctx);
        (ListState(h.0, Fresh), Returned(h.1))
  }

  /** `process_voice_input`: extract, validate, then read back or perform
      the action. A raise or a read leaves the store alone and keeps the
      extracted slots; a performed action replaces the slots with a fresh
      `Context`. */
  function ProcessVoiceInput(p: Patterns, st: ListState, input: string): (r: (ListState, Outcome))
    ensures var ctx := ExtractFromInput(p, st.ctx, input);
            && (r.1.Raised? <==> Validate(ctx).Some?)
            && (r.1.Raised? ==> r.0 == st.(ctx := ctx) && r.1.fault == Validate(ctx).value)
            && (!r.1.Raised? && ctx.action == Some(Read) ==> r.0 == st.(ctx := ctx))
            && (!r.1.Raised? && ctx.action != Some(Read) ==> r.0.ctx == Fresh)
            && (!r.1.Raised? ==> Truthy(r.1.value))
            && (!r.1.Raised? && ctx.action == Some(Read) ==> r.1 == Says(ReadReply(st.store, ctx.list.value)))
            && (!r.1.Raised? && ctx.action != Some(Read) ==>
                  var h := HandleRequest(st.store, ctx); r.0.store == h.0 && r.1 == Returned(h.1))
  {
    Respond(st, ExtractFromInput(p, st.ctx, input))
  }

  /** Only the list the utterance names can change; every other list is
      untouched by every path of `process_voice_input`. */
  lemma OtherListsUntouched(p: Patterns, st: ListState, input: string)
    ensures var ctx := ExtractFromInput(p, st.ctx, input);
            var r := ProcessVoiceInput(p, st, input);
            forall k :: k in st.store && Some(k) != ctx.list ==> k in r.0.store && r.0.store[k] == st.store[k]
  {
  }

  /** `process_follow_up_input` of the list skill does nothing and returns
      `None`. */
  function ProcessFollowUp(st: ListState, input: string): (r: (ListState, Outcome))
    ensures r.0 == st && r.1 == Returned(None)
  {
    (st, Returned(None))
  }
}
