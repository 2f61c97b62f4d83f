/** Assembling tool calls (ai_client.py): a streaming model sends each call in fragments, interleaved with
    those of other calls; a non-streaming model sends it whole. */
module ToolCallAssembly {
  import opened Options
  import opened PyText
  import opened Sequences
  import Ordering

  /** One delta of a call; an empty text is an absent field. */
  datatype Fragment = Fragment(index: int, id: string, name: string, arguments: string)

  datatype Slot = Slot(id: string, name: string, arguments: string)

  /** An element of a non-streaming reply's tool_calls. */
  datatype Item = NotAnObject | Item(id: string, functionName: string, itemName: string, arguments: string)

  type Args = map<string, string>

  datatype ToolCall = ToolCall(id: string, name: string, arguments: string, args: Args)

  /** json.loads, where None stands for a syntax error or for JSON that is not an object. */
  type Json = string -> Option<Args>

  // ---------------- streaming ----------------

  function Merged(slot: Slot, f: Fragment): Slot {
    Slot(OrElse(f.id, slot.id), OrElse(f.name, slot.name), slot.arguments + f.arguments)
  }

  function SlotAt(slots: map<int, Slot>, index: int): Slot {
    if index in slots then slots[index] else Slot("", "", "")
  }

  function Slots(fragments: seq<Fragment>): map<int, Slot> {
    if fragments == [] then map[]
    else
      var f, before := fragments[|fragments| - 1], Slots(fragments[..|fragments| - 1]);
      before[f.index := Merged(SlotAt(before, f.index), f)]
  }

  method MergeInto(before: Slot, item: Fragment) returns (slot: Slot)
    ensures slot == Merged(before, item)
  {
    slot := before;
    if item.id != "" { slot := slot.(id := item.id); }
    if item.name != "" { slot := slot.(name := item.name); }
    if item.arguments != "" { slot := slot.(arguments := slot.arguments + item.arguments); }
  }

  lemma SlotsMore(fragments: seq<Fragment>, k: nat)
    requires k < |fragments|
    ensures var f, before := fragments[k], Slots(fragments[..k]);
            Slots(fragments[..k + 1]) == before[f.index := Merged(SlotAt(before, f.index), f)]
  {
    assert fragments[..k + 1][..k] == fragments[..k];
  }

  /** The loop over a stream's tool-call deltas. */
  method AssembleToolCalls(fragments: seq<Fragment>) returns (slots: map<int, Slot>)
    ensures slots == Slots(fragments)
  {
    slots := map[];
    for k := 0 to |fragments|
      invariant slots == Slots(fragments[..k])
    {
      var item := fragments[k];
      SlotsMore(fragments, k);
      if item.index !in slots {
        slots := slots[item.index := Slot("", "", "")];
      }
      var slot := MergeInto(slots[item.index], item);
      slots := slots[item.index := slot];
    }
    assert fragments[..|fragments|] == fragments;
  }

  // ---------------- finishing ----------------

  function CallId(id: string, index: int): string {
    OrElse(id, "call_" + ShowInt(index))
  }

  /** The arguments a text stands for: blank, malformed and non-object texts all mean none. */
  function ArgsOf(text: string, json: Json): Args {
    if Blank(text) then map[] else json(text).GetOr(map[])
  }

  method ParseArguments(text: string, json: Json) returns (args: Args)
    ensures args == ArgsOf(text, json)
  {
    args := map[];
    if !Blank(text) {
      match json(text) {
        case Some(value) => args := value;
        case None =>
      }
    }
  }

  function CallOf(slot: Slot, index: int, json: Json): ToolCall {
    ToolCall(CallId(slot.id, index), slot.name, slot.arguments, ArgsOf(slot.arguments, json))
  }

  function Indices(slots: map<int, Slot>): (r: seq<int>)
    ensures Ordering.Ascending(r, Ordering.IntLe)
    ensures forall i :: i in r <==> i in slots
  {
    Ordering.SortedSet(slots.Keys, Ordering.IntLe)
  }

  function CallsInOrder(slots: map<int, Slot>, order: seq<int>, json: Json): (r: seq<ToolCall>)
    requires forall k :: 0 <= k < |order| ==> order[k] in slots
    ensures |r| == |order|
  {
    seq(|order|, k requires 0 <= k < |order| => CallOf(slots[order[k]], order[k], json))
  }

  function Finalized(slots: map<int, Slot>, json: Json): seq<ToolCall> {
    CallsInOrder(slots, Indices(slots), json)
  }

  method FinalizeToolCall(item: Slot, index: int, json: Json) returns (call: ToolCall)
    ensures call == CallOf(item, index, json)
  {
    var args := ParseArguments(item.arguments, json);
    call := ToolCall(CallId(item.id, index), item.name, item.arguments, args);
  }

  method FinalizeInOrder(slots: map<int, Slot>, order: seq<int>, json: Json) returns (result: seq<ToolCall>)
    requires forall k :: 0 <= k < |order| ==> order[k] in slots
    ensures result == CallsInOrder(slots, order, json)
  {
    result := [];
    for k := 0 to |order|
      invariant |result| == k
      invariant forall j :: 0 <= j < k ==> result[j] == CallOf(slots[order[j]], order[j], json)
    {
      var call := FinalizeToolCall(slots[order[k]], order[k], json);
      result := result + [call];
    }
  }

  method FinalizeToolCalls(slots: map<int, Slot>, json: Json) returns (result: seq<ToolCall>)
    ensures result == Finalized(slots, json)
  {
    result := FinalizeInOrder(slots, Indices(slots), json);
  }

  // ---------------- not streaming ----------------

  function NormalSlot(item: Item, index: int): Slot
    requires item.Item?
  {
    Slot(CallId(item.id, index), OrElse(item.functionName, item.itemName), item.arguments)
  }

  function NormalSlots(items: seq<Item>): map<int, Slot> {
    map i | 0 <= i < |items| && items[i].Item? :: NormalSlot(items[i], i)
  }

  method NormalizeToolCalls(items: seq<Item>, json: Json) returns (result: seq<ToolCall>)
    ensures result == Finalized(NormalSlots(items), json)
  {
    var slots: map<int, Slot> := map[];
    for index := 0 to |items|
      invariant forall i :: i in slots <==> 0 <= i < index && items[i].Item?
      invariant forall i :: i in slots ==> slots[i] == NormalSlot(items[i], i)
    {
      var item := items[index];
      if item.NotAnObject? { continue; }
      slots := slots[index := NormalSlot(item, index)];
    }
    assert slots == NormalSlots(items);
    result := FinalizeToolCalls(slots, json);
  }

  // ---------------- what assembly means ----------------

  /** The fragments of call i, in the order they arrived. */
  function Own(fragments: seq<Fragment>, i: int): seq<Fragment> {
    if fragments == [] then []
    else (if fragments[0].index == i then [fragments[0]] else []) + Own(fragments[1..], i)
  }

  function LastId(fragments: seq<Fragment>): string {
    if fragments == [] then "" else OrElse(LastId(fragments[1..]), fragments[0].id)
  }

  function LastName(fragments: seq<Fragment>): string {
    if fragments == [] then "" else OrElse(LastName(fragments[1..]), fragments[0].name)
  }

  function AllArguments(fragments: seq<Fragment>): string {
    if fragments == [] then "" else fragments[0].arguments + AllArguments(fragments[1..])
  }

  /** The call its own fragments spell: the last id and name sent, and all argument texts joined. */
  function Spelled(own: seq<Fragment>): Slot {
    Slot(LastId(own), LastName(own), AllArguments(own))
  }

  lemma {:induction false} OwnAppend(a: seq<Fragment>, b: seq<Fragment>, i: int)
    ensures Own(a + b, i) == Own(a, i) + Own(b, i)
  {
    if a == [] {
      assert a + b == b;
    } else {
      OwnAppend(a[1..], b, i);
      assert (a + b)[0] == a[0] && (a + b)[1..] == a[1..] + b;
      JoinAssociates(if a[0].index == i then [a[0]] else [], Own(a[1..], i), Own(b, i));
    }
  }

  lemma {:induction false} SpelledMore(own: seq<Fragment>, f: Fragment)
    ensures Spelled(own + [f]) == Merged(Spelled(own), f)
  {
    if own == [] {
      assert [f][1..] == [];
      assert f.arguments + "" == f.arguments && "" + f.arguments == f.arguments;
    } else {
      SpelledMore(own[1..], f);
      assert (own + [f])[1..] == own[1..] + [f];
    }
  }

  /** Slot i of the assembly is exactly what the fragments of call i spell, and exists exactly when there
      are some: fragments of other calls in between make no difference. */
  lemma {:induction false} SlotIsSpelled(fragments: seq<Fragment>, i: int)
    ensures i in Slots(fragments) <==> Own(fragments, i) != []
    ensures SlotAt(Slots(fragments), i) == Spelled(Own(fragments, i))
  {
    if fragments != [] {
      var n := |fragments| - 1;
      var f := fragments[n];
      SlotIsSpelled(fragments[..n], i);
      OwnAppend(fragments[..n], [f], i);
      assert fragments == fragments[..n] + [f] && [f][1..] == [];
      assert Own([f], i) == if f.index == i then [f] else [];
      if f.index == i {
        SpelledMore(Own(fragments[..n], i), f);
      } else {
        assert Own(fragments[..n], i) + [] == Own(fragments[..n], i);
      }
    }
  }

  /** The text is that of the last fragment of call i which carries one, or empty if none does. */
  ghost predicate LastSent(fragments: seq<Fragment>, i: int, field: Fragment -> string, text: string) {
    if text == "" then forall k :: 0 <= k < |fragments| && fragments[k].index == i ==> field(fragments[k]) == ""
    else
      exists k :: 0 <= k < |fragments| && fragments[k].index == i && field(fragments[k]) == text
        && forall j :: k < j < |fragments| && fragments[j].index == i ==> field(fragments[j]) == ""
  }

  lemma LastSentMore(fragments: seq<Fragment>, i: int, field: Fragment -> string, text: string)
    requires fragments != [] && LastSent(fragments[..|fragments| - 1], i, field, text)
    ensures var f := fragments[|fragments| - 1];
            LastSent(fragments, i, field, if f.index == i && field(f) != "" then field(f) else text)
  {
    var n := |fragments| - 1;
    var f := fragments[n];
    if f.index == i && field(f) != "" {
      assert fragments[n] == f;
    } else if text != "" {
      var k :| 0 <= k < n && fragments[..n][k].index == i && field(fragments[..n][k]) == text
          && forall j :: k < j < n && fragments[..n][j].index == i ==> field(fragments[..n][j]) == "";
      assert fragments[k] == fragments[..n][k];
      forall j | k < j < |fragments| && fragments[j].index == i ensures field(fragments[j]) == "" {
        assert j < n ==> fragments[..n][j] == fragments[j];
      }
    } else {
      forall k | 0 <= k < |fragments| && fragments[k].index == i ensures field(fragments[k]) == "" {
        assert k < n ==> fragments[..n][k] == fragments[k];
      }
    }
  }

  /** Of the assembled call i, the id and the name are those sent last. */
  lemma {:induction false} LastSentWins(fragments: seq<Fragment>, i: int)
    ensures LastSent(fragments, i, (f: Fragment) => f.id, SlotAt(Slots(fragments), i).id)
    ensures LastSent(fragments, i, (f: Fragment) => f.name, SlotAt(Slots(fragments), i).name)
  {
    if fragments != [] {
      LastSentWins(fragments[..|fragments| - 1], i);
      var before := SlotAt(Slots(fragments[..|fragments| - 1]), i);
      LastSentMore(fragments, i, (f: Fragment) => f.id, before.id);
      LastSentMore(fragments, i, (f: Fragment) => f.name, before.name);
    }
  }

  /** The two streams carry the same calls. */
  predicate SameCall(a: seq<Fragment>, b: seq<Fragment>, i: int) {
    (Own(a, i) == [] <==> Own(b, i) == []) && Spelled(Own(a, i)) == Spelled(Own(b, i))
  }

  /** The assembly of two streams is the same exactly when their calls are, one by one. */
  lemma SameCallsIffSameSlots(a: seq<Fragment>, b: seq<Fragment>)
    ensures Slots(a) == Slots(b) <==> forall i :: SameCall(a, b, i)
  {
    forall i
      ensures ((i in Slots(a) <==> i in Slots(b)) && SlotAt(Slots(a), i) == SlotAt(Slots(b), i)) <==> SameCall(a, b, i)
    {
      SlotIsSpelled(a, i);
      SlotIsSpelled(b, i);
    }
    if forall i :: SameCall(a, b, i) {
      forall i ensures (i in Slots(a) <==> i in Slots(b)) && (i in Slots(a) ==> Slots(a)[i] == Slots(b)[i]) {
        assert SameCall(a, b, i);
      }
      assert Slots(a) == Slots(b);
    }
  }

  /** Any two streams that deliver each call's fragments in the same order assemble alike, however the
      calls are interleaved. */
  lemma InterleavingDoesNotMatter(a: seq<Fragment>, b: seq<Fragment>)
    requires forall i :: Own(a, i) == Own(b, i)
    ensures Slots(a) == Slots(b)
  {
    SameCallsIffSameSlots(a, b);
  }

  lemma {:induction false} NamesAppend(a: seq<Fragment>, b: seq<Fragment>)
    ensures LastId(a + b) == OrElse(LastId(b), LastId(a))
    ensures LastName(a + b) == OrElse(LastName(b), LastName(a))
  {
    if a == [] {
      assert a + b == b;
    } else {
      NamesAppend(a[1..], b);
      assert (a + b)[0] == a[0] && (a + b)[1..] == a[1..] + b;
    }
  }

  lemma {:induction false} ArgumentsAppend(a: seq<Fragment>, b: seq<Fragment>)
    ensures AllArguments(a + b) == AllArguments(a) + AllArguments(b)
  {
    if a == [] {
      assert a + b == b;
    } else {
      ArgumentsAppend(a[1..], b);
      assert (a + b)[0] == a[0] && (a + b)[1..] == a[1..] + b;
      JoinAssociates(a[0].arguments, AllArguments(a[1..]), AllArguments(b));
    }
  }

  lemma SpelledAppend(a: seq<Fragment>, b: seq<Fragment>)
    ensures LastId(a + b) == OrElse(LastId(b), LastId(a))
    ensures LastName(a + b) == OrElse(LastName(b), LastName(a))
    ensures AllArguments(a + b) == AllArguments(a) + AllArguments(b)
  {
    NamesAppend(a, b);
    ArgumentsAppend(a, b);
  }

  /** The fragment f with its argument text cut in two. */
  function CutAt(f: Fragment, cut: nat): seq<Fragment>
    requires cut <= |f.arguments|
  {
    [f.(arguments := f.arguments[..cut]), Fragment(f.index, "", "", f.arguments[cut..])]
  }

  lemma CutIsSameCall(f: Fragment, cut: nat, i: int)
    requires cut <= |f.arguments|
    ensures SameCall(CutAt(f, cut), [f], i)
  {
    var x, y := CutAt(f, cut)[0], CutAt(f, cut)[1];
    assert CutAt(f, cut) == [x] + [y];
    OwnAppend([x], [y], i);
    assert [x][1..] == [] && [y][1..] == [] && [f][1..] == [];
    if f.index == i {
      assert Own(CutAt(f, cut), i) == [x] + [y] && Own([f], i) == [f];
      SpelledAppend([x], [y]);
      SpelledMore([], x);
      SpelledMore([], y);
      SpelledMore([], f);
      assert [] + [x] == [x] && [] + [y] == [y] && [] + [f] == [f];
      assert f.arguments[..cut] + f.arguments[cut..] == f.arguments;
    }
  }

  lemma SpelledInContext(b: seq<Fragment>, x: seq<Fragment>, y: seq<Fragment>, l: seq<Fragment>)
    requires Spelled(x) == Spelled(y)
    ensures Spelled((b + x) + l) == Spelled((b + y) + l)
  {
    SpelledAppend(b + x, l);
    SpelledAppend(b, x);
    SpelledAppend(b + y, l);
    SpelledAppend(b, y);
  }

  lemma OwnInContext(b: seq<Fragment>, x: seq<Fragment>, l: seq<Fragment>, i: int)
    ensures Own(b + x + l, i) == Own(b, i) + Own(x, i) + Own(l, i)
  {
    OwnAppend(b + x, l, i);
    OwnAppend(b, x, i);
  }

  lemma SameCallInContext(b: seq<Fragment>, x: seq<Fragment>, y: seq<Fragment>, l: seq<Fragment>, i: int)
    requires SameCall(x, y, i)
    ensures SameCall(b + x + l, b + y + l, i)
  {
    OwnInContext(b, x, l, i);
    OwnInContext(b, y, l, i);
    SpelledInContext(Own(b, i), Own(x, i), Own(y, i), Own(l, i));
  }

  /** Where an argument text is cut into fragments makes no difference. */
  lemma CuttingDoesNotMatter(before: seq<Fragment>, f: Fragment, cut: nat, later: seq<Fragment>)
    requires cut <= |f.arguments|
    ensures Slots(before + CutAt(f, cut) + later) == Slots(before + [f] + later)
  {
    forall i ensures SameCall(before + CutAt(f, cut) + later, before + [f] + later, i) {
      CutIsSameCall(f, cut, i);
      SameCallInContext(before, CutAt(f, cut), [f], later, i);
    }
    SameCallsIffSameSlots(before + CutAt(f, cut) + later, before + [f] + later);
  }

  // ---------------- streaming against not streaming ----------------

  /** The fragments stream the same calls as the whole items, in the fields that a stream has. */
  ghost predicate Streams(fragments: seq<Fragment>, items: seq<Item>) {
    && (forall i :: Own(fragments, i) != [] <==> 0 <= i < |items|)
    && (forall i :: 0 <= i < |items| ==>
          items[i].Item? && Spelled(Own(fragments, i)) == Slot(items[i].id, items[i].functionName, items[i].arguments))
  }

  predicate NamedInFunction(item: Item) {
    item.Item? && (item.functionName != "" || item.itemName == "")
  }

  lemma CallAgreesIff(fragments: seq<Fragment>, items: seq<Item>, json: Json, i: int)
    requires Streams(fragments, items) && 0 <= i < |items|
    ensures i in Slots(fragments) && i in NormalSlots(items)
    ensures AgreeAt(Slots(fragments), NormalSlots(items), json, i) <==> NamedInFunction(items[i])
  {
    SlotIsSpelled(fragments, i);
  }

  predicate AgreeAt(a: map<int, Slot>, b: map<int, Slot>, json: Json, i: int) {
    i in a && i in b && CallOf(a[i], i, json) == CallOf(b[i], i, json)
  }

  lemma SameFinalIff(a: map<int, Slot>, b: map<int, Slot>, json: Json)
    requires a.Keys == b.Keys
    ensures Finalized(a, json) == Finalized(b, json) <==> forall i :: i in a ==> AgreeAt(a, b, json, i)
  {
    var order := Indices(a);
    if Finalized(a, json) == Finalized(b, json) {
      forall i | i in a ensures AgreeAt(a, b, json, i) {
        var k :| 0 <= k < |order| && order[k] == i;
        assert Finalized(a, json)[k] == Finalized(b, json)[k];
      }
    }
  }

  /** A streamed reply and a whole one give the same tool calls exactly when every call has its name where
      the stream looks for it: in its function, or nowhere. */
  lemma StreamedEqualsWholeIff(fragments: seq<Fragment>, items: seq<Item>, json: Json)
    requires Streams(fragments, items)
    ensures Finalized(Slots(fragments), json) == Finalized(NormalSlots(items), json)
            <==> forall i :: 0 <= i < |items| ==> NamedInFunction(items[i])
  {
    var a, b := Slots(fragments), NormalSlots(items);
    forall i ensures i in a <==> 0 <= i < |items| { SlotIsSpelled(fragments, i); }
    assert a.Keys == b.Keys;
    SameFinalIff(a, b, json);
    forall i | 0 <= i < |items| ensures AgreeAt(a, b, json, i) <==> NamedInFunction(items[i]) {
      CallAgreesIff(fragments, items, json, i);
    }
  }

  /** What the parser makes of the text, if it is JSON of an object, and nothing if it is blank or anything else. */
  predicate ParsedBy(args: Args, text: string, json: Json) {
    if (exists k :: 0 <= k < |text| && !IsSpace(text[k])) && json(text).Some? then args == json(text).value
    else args == map[]
  }

  /** Calls come out in index order, one per index, with the name and the arguments of their slot, the arguments as the
      parser reads them, and with its id, or one made from its index where the slot has none. */
  lemma CallIsItsSlot(slots: map<int, Slot>, json: Json, k: nat)
    requires k < |Finalized(slots, json)|
    ensures |Finalized(slots, json)| == |Indices(slots)| && Indices(slots)[k] in slots
    ensures k > 0 ==> Indices(slots)[k - 1] < Indices(slots)[k]
    ensures var call, i := Finalized(slots, json)[k], Indices(slots)[k];
            && call.name == slots[i].name && call.arguments == slots[i].arguments
            && ParsedBy(call.args, slots[i].arguments, json)
            && call.id != "" && (slots[i].id != "" ==> call.id == slots[i].id)
            && (slots[i].id == "" ==>
                  |call.id| > 5 && call.id[..5] == "call_" && ParseInt(call.id[5..]) == Some(i))
  {
    var i := Indices(slots)[k];
    assert i in Indices(slots);
    ParseShown(i);
    assert ("call_" + ShowInt(i))[5..] == ShowInt(i);
  }

  /** From the stream to the call: the arguments of call i are what the parser reads from all its argument texts
      together, in the order they came. */
  lemma ArgumentsReachTheCall(fragments: seq<Fragment>, json: Json, k: nat)
    requires k < |Finalized(Slots(fragments), json)|
    ensures var call, i := Finalized(Slots(fragments), json)[k], Indices(Slots(fragments))[k];
            && call.arguments == AllArguments(Own(fragments, i))
            && ParsedBy(call.args, AllArguments(Own(fragments, i)), json)
  {
    CallIsItsSlot(Slots(fragments), json, k);
    SlotIsSpelled(fragments, Indices(Slots(fragments))[k]);
  }

  /** The calls of a whole reply: one for each item that is an object, under its position. */
  lemma WholeItems(items: seq<Item>, i: int)
    ensures i in NormalSlots(items) <==> 0 <= i < |items| && items[i].Item?
    ensures i in NormalSlots(items) ==>
              var slot, item := NormalSlots(items)[i], items[i];
              && slot.arguments == item.arguments
              && slot.name == (if item.functionName == "" then item.itemName else item.functionName)
              && (item.id != "" ==> slot.id == item.id)
              && (item.id == "" ==> |slot.id| > 5 && slot.id[..5] == "call_" && ParseInt(slot.id[5..]) == Some(i))
  {
    ParseShown(i);
    assert ("call_" + ShowInt(i))[5..] == ShowInt(i);
  }

  /** A call that carries its name beside its function: the whole reply names it "t", the stream does not. */
  lemma NameBesideFunctionIsLost(json: Json)
    ensures var fragments, items := [Fragment(0, "c", "", "")], [Item("c", "", "t", "")];
            && Streams(fragments, items)
            && Finalized(Slots(fragments), json) != Finalized(NormalSlots(items), json)
  {
    var fragments, items := [Fragment(0, "c", "", "")], [Item("c", "", "t", "")];
    assert fragments[1..] == [];
    forall i ensures Own(fragments, i) == if i == 0 then fragments else [] {
      assert fragments + [] == fragments && [] + Own([], i) == [];
    }
    assert !NamedInFunction(items[0]);
    StreamedEqualsWholeIff(fragments, items, json);
  }
}
