/** The manifest handler driven by a whole event stream: the loop that feeds
    the reader's events to `enter`, `leave` and `receive_chars`, and what that
    loop does to the stack, the tracker and the module builders. */
module HandlerProps {
  import opened Utils
  import opened Builder
  import opened IndexTracker
  import opened HandlerSpec

  /** The order in which `leave` pops and steps: the code's order, or the
      order its depth constants call for. */
  datatype LeaveRule = PopThenStep | StepThenPop

  /** How a parse ends: the stream was used up or cut short by a fault
      (`faulted`), or a resource without identifier stopped it. */
  datatype Outcome = Finished(state: HandlerState, faulted: bool) | Fatal

  function Close(rule: LeaveRule, h: HandlerState, name: string): HandlerState {
    match rule
    case PopThenStep => Leave(h, name)
    case StepThenPop => LeaveStepFirst(h, name)
  }

  /** One event handed to the handler's callbacks; the events the handler
      does not react to leave it as it is. */
  function Apply(rule: LeaveRule, h: HandlerState, e: Event): HandlerState {
    match e
    case Start(node) => Enter(h, node)
    case End(name) => Close(rule, h, name)
    case Chars(text) => ReceiveChars(h, text)
    case _ => h
  }

  /** The parse loop: events in order until the stream ends, a fault stops
      it with what was built so far, or a resource lacks its identifier. */
  function Replay(rule: LeaveRule, h: HandlerState, evs: seq<Event>): Outcome
    decreases |evs|
  {
    if evs == [] then Finished(h, false)
    else if evs[0].Err? then Finished(h, true)
    else if evs[0].Start? && EnterFails(h, evs[0].node) then Fatal
    else Replay(rule, Apply(rule, h, evs[0]), evs[1..])
  }

  /** Carry on with more events after an outcome, if the parse is still going. */
  function Continue(rule: LeaveRule, o: Outcome, evs: seq<Event>): Outcome {
    if o.Finished? && !o.faulted then Replay(rule, o.state, evs) else o
  }

  /** Replaying a concatenation is replaying its parts one after the other. */
  lemma {:induction false} ReplayAppend(rule: LeaveRule, h: HandlerState, a: seq<Event>, b: seq<Event>)
    ensures Replay(rule, h, a + b) == Continue(rule, Replay(rule, h, a), b)
    decreases |a|
  {
    if a == [] {
      assert a + b == b;
    } else {
      assert (a + b)[0] == a[0];
      assert (a + b)[1..] == a[1..] + b;
      if !a[0].Err? && !(a[0].Start? && EnterFails(h, a[0].node)) {
        ReplayAppend(rule, Apply(rule, h, a[0]), a[1..], b);
      }
    }
  }

  /** Two runs that finish cleanly, one after the other. */
  lemma {:induction false} ReplayThen(rule: LeaveRule, h: HandlerState, a: seq<Event>, b: seq<Event>, h1: HandlerState, h2: HandlerState)
    requires Replay(rule, h, a) == Finished(h1, false)
    requires Replay(rule, h1, b) == Finished(h2, false)
    ensures Replay(rule, h, a + b) == Finished(h2, false)
  {
    ReplayAppend(rule, h, a, b);
  }

  /** `enter` pushes one entry and `leave` pops one: on a stream that never
      closes more than is open, the stack ends `Net(evs)` entries longer. */
  lemma {:induction false} ReplayStackLength(rule: LeaveRule, h: HandlerState, evs: seq<Event>)
    requires Fits(|h.stack|, evs)
    ensures Replay(rule, h, evs).Finished? && !Replay(rule, h, evs).faulted ==>
              |Replay(rule, h, evs).state.stack| == |h.stack| + Net(evs)
    decreases |evs|
  {
    if evs != [] && !evs[0].Err? && !(evs[0].Start? && EnterFails(h, evs[0].node)) {
      var h' := Apply(rule, h, evs[0]);
      assert |h'.stack| == |h.stack| + Delta(evs[0]);
      ReplayStackLength(rule, h', evs[1..]);
    }
  }

  /** A balanced stream leaves the stack as long as it found it. */
  lemma {:induction false} BalancedKeepsDepth(rule: LeaveRule, h: HandlerState, evs: seq<Event>)
    requires Balanced(evs) && h.stack == []
    ensures Replay(rule, h, evs).Finished? && !Replay(rule, h, evs).faulted ==>
              Replay(rule, h, evs).state.stack == []
  {
    ReplayStackLength(rule, h, evs);
  }

  // -----------------------------------------------------------------------
  // A module block of the organization tree
  // -----------------------------------------------------------------------

  /** An item of a module as it appears in the manifest: its attributes and
      the text of its title. */
  datatype ItemEntry = ItemEntry(attributes: seq<Attr>, title: string)

  const TITLE: Node := Node("title", [])

  function TitleEvents(text: string): seq<Event> {
    [Start(TITLE), Chars(text), End("title")]
  }

  /** `<item ...><title>t</title></item>` */
  function ItemEvents(e: ItemEntry): seq<Event> {
    [Start(Node("item", e.attributes))] + TitleEvents(e.title) + [End("item")]
  }

  function ItemsEvents(items: seq<ItemEntry>): seq<Event> {
    if items == [] then [] else ItemEvents(items[0]) + ItemsEvents(items[1..])
  }

  /** `<item ...><title>t</title> items... </item>` */
  function ModuleEvents(attrs: seq<Attr>, title: string, items: seq<ItemEntry>): seq<Event> {
    [Start(Node("item", attrs))] + TitleEvents(title) + ItemsEvents(items) + [End("item")]
  }

  /** The item builder an entry should produce. */
  function Built(e: ItemEntry): ModuleItemBuilder {
    ModuleItemBuilder(e.title, FindAttr("identifierref", e.attributes))
  }

  function AllBuilt(items: seq<ItemEntry>): seq<ModuleItemBuilder> {
    if items == [] then [] else [Built(items[0])] + AllBuilt(items[1..])
  }

  /** The state in which a module's title and items are written where they
      belong: inside an open module, the tracker points at the last module
      and one past its last item. */
  predicate AtModuleEnd(h: HandlerState) {
    && |h.stack| == MODULE_DEPTH
    && h.stack[MODULE_DEPTH - 1].HasName("item")
    && h.tracker.moduleIndex + 1 == |h.builder.modules|
    && h.tracker.moduleItemIndex == |h.builder.modules[h.tracker.moduleIndex].items|
  }

  function AppendItem(h: HandlerState, item: ModuleItemBuilder): HandlerState
    requires h.tracker.moduleIndex < |h.builder.modules|
  {
    var i := h.tracker.moduleIndex;
    var m := h.builder.modules[i];
    h.(builder := h.builder.(modules := h.builder.modules[i := m.(items := m.items + [item])]))
  }

  /** Opening an item inside an open module and giving it its title: the
      item is appended to the tracked module and carries the title. */
  lemma {:induction false} ItemOpened(rule: LeaveRule, h: HandlerState, e: ItemEntry)
    requires AtModuleEnd(h)
    ensures Replay(rule, h, [Start(Node("item", e.attributes))] + TitleEvents(e.title)) ==
              Finished(AppendItem(h, Built(e)).(stack := h.stack + [Node("item", e.attributes)]), false)
  {
    var node := Node("item", e.attributes);
    var evs := [Start(node)] + TitleEvents(e.title);
    var h1 := Enter(h, node);
    assert h1 == AppendItem(h, ModuleItemBuilder("", node.Find("identifierref"))).(stack := h.stack + [node]);
    var h2 := Enter(h1, TITLE);
    var h3 := ReceiveChars(h2, e.title);
    assert h3.stack[6].HasName("title") && h3.stack[5].HasName("item");
    var h4 := Close(rule, h3, "title");
    assert evs == [Start(node), Start(TITLE), Chars(e.title), End("title")];
    assert Replay(rule, h, evs) == Replay(rule, h1, evs[1..]);
    assert evs[1..][1..] == evs[2..];
    assert Replay(rule, h1, evs[1..]) == Replay(rule, h2, evs[2..]);
    assert evs[2..][1..] == evs[3..];
    assert Replay(rule, h2, evs[2..]) == Replay(rule, h3, evs[3..]);
    assert evs[3..][1..] == [];
    assert Replay(rule, h3, evs[3..]) == Finished(h4, false);
    var i := h.tracker.moduleIndex;
    assert h3.builder.modules[i].items == h.builder.modules[i].items + [Built(e)];
    assert h3.builder == AppendItem(h, Built(e)).builder;
  }

  /** Opening an item when the tracker points past the last module: the item
      and its title go nowhere. */
  lemma {:induction false} ItemOpenedLost(rule: LeaveRule, h: HandlerState, e: ItemEntry)
    requires |h.stack| == MODULE_DEPTH && h.tracker.moduleIndex >= |h.builder.modules|
    ensures Replay(rule, h, [Start(Node("item", e.attributes))] + TitleEvents(e.title)) ==
              Finished(h.(stack := h.stack + [Node("item", e.attributes)]), false)
  {
    var node := Node("item", e.attributes);
    var evs := [Start(node)] + TitleEvents(e.title);
    var h1 := Enter(h, node);
    var h2 := Enter(h1, TITLE);
    var h3 := ReceiveChars(h2, e.title);
    assert h3.stack[6].HasName("title") && h3.stack[5].HasName("item");
    var h4 := Close(rule, h3, "title");
    assert evs == [Start(node), Start(TITLE), Chars(e.title), End("title")];
    assert Replay(rule, h, evs) == Replay(rule, h1, evs[1..]);
    assert evs[1..][1..] == evs[2..];
    assert Replay(rule, h1, evs[1..]) == Replay(rule, h2, evs[2..]);
    assert evs[2..][1..] == evs[3..];
    assert Replay(rule, h2, evs[2..]) == Replay(rule, h3, evs[3..]);
    assert evs[3..][1..] == [];
    assert Replay(rule, h3, evs[3..]) == Finished(h4, false);
  }

  /** Replaying a single closing tag. */
  lemma {:induction false} ReplayClose(rule: LeaveRule, h: HandlerState, name: string)
    ensures Replay(rule, h, [End(name)]) == Finished(Close(rule, h, name), false)
  {
    assert [End(name)][1..] == [];
  }

  /** The corrected leave: an item block appends its item, titled, and moves
      the tracker one item on. */
  lemma {:induction false} ItemBlockStepFirst(h: HandlerState, e: ItemEntry)
    requires AtModuleEnd(h)
    ensures Replay(StepThenPop, h, ItemEvents(e)) ==
              Finished(AppendItem(h, Built(e)).(tracker := h.tracker.(moduleItemIndex := h.tracker.moduleItemIndex + 1)), false)
    ensures AtModuleEnd(AppendItem(h, Built(e)).(tracker := h.tracker.(moduleItemIndex := h.tracker.moduleItemIndex + 1)))
  {
    var node := Node("item", e.attributes);
    ItemOpened(StepThenPop, h, e);
    ReplayAppend(StepThenPop, h, [Start(node)] + TitleEvents(e.title), [End("item")]);
    ReplayClose(StepThenPop, AppendItem(h, Built(e)).(stack := h.stack + [node]), "item");
  }

  /** As written: closing the module's first item steps the tracker as if a
      module had closed, so the tracker moves to a module that does not exist. */
  lemma {:induction false} ItemBlockPopFirst(h: HandlerState, e: ItemEntry)
    requires AtModuleEnd(h)
    ensures Replay(PopThenStep, h, ItemEvents(e)) ==
              Finished(AppendItem(h, Built(e)).(tracker := Position(h.tracker.moduleIndex + 1, 0)), false)
  {
    var node := Node("item", e.attributes);
    ItemOpened(PopThenStep, h, e);
    ReplayAppend(PopThenStep, h, [Start(node)] + TitleEvents(e.title), [End("item")]);
    ReplayClose(PopThenStep, AppendItem(h, Built(e)).(stack := h.stack + [node]), "item");
  }

  /** As written: with the tracker past the last module, an item block is
      dropped and pushes the tracker one module further. */
  lemma {:induction false} ItemBlockPopFirstLost(h: HandlerState, e: ItemEntry)
    requires |h.stack| == MODULE_DEPTH && h.tracker.moduleIndex >= |h.builder.modules|
    ensures Replay(PopThenStep, h, ItemEvents(e)) ==
              Finished(h.(tracker := Position(h.tracker.moduleIndex + 1, 0)), false)
  {
    var node := Node("item", e.attributes);
    ItemOpenedLost(PopThenStep, h, e);
    ReplayAppend(PopThenStep, h, [Start(node)] + TitleEvents(e.title), [End("item")]);
    ReplayClose(PopThenStep, h.(stack := h.stack + [node]), "item");
  }

  /** The corrected leave: each item of a module lands, titled, at the end of
      the module, in document order. */
  lemma {:induction false} ItemsStepFirst(h: HandlerState, items: seq<ItemEntry>)
    requires AtModuleEnd(h)
    ensures var i := h.tracker.moduleIndex;
            var m := h.builder.modules[i];
            var h' := h.(builder := h.builder.(modules := h.builder.modules[i := m.(items := m.items + AllBuilt(items))]),
                         tracker := h.tracker.(moduleItemIndex := h.tracker.moduleItemIndex + |items|));
            Replay(StepThenPop, h, ItemsEvents(items)) == Finished(h', false) && AtModuleEnd(h')
    decreases |items|
  {
    var i := h.tracker.moduleIndex;
    var m := h.builder.modules[i];
    if items == [] {
      assert m.items + AllBuilt(items) == m.items;
      assert h.builder.modules[i := m] == h.builder.modules;
    } else {
      ItemBlockStepFirst(h, items[0]);
      var h1 := AppendItem(h, Built(items[0])).(tracker := h.tracker.(moduleItemIndex := h.tracker.moduleItemIndex + 1));
      ReplayAppend(StepThenPop, h, ItemEvents(items[0]), ItemsEvents(items[1..]));
      ItemsStepFirst(h1, items[1..]);
      assert m.items + [Built(items[0])] + AllBuilt(items[1..]) == m.items + AllBuilt(items);
    }
  }

  /** As written: once the tracker is past the last module, every further
      item block is dropped and moves the tracker one module on. */
  lemma {:induction false} ItemsPopFirstLost(h: HandlerState, items: seq<ItemEntry>)
    requires |h.stack| == MODULE_DEPTH && h.tracker.moduleIndex >= |h.builder.modules|
    requires h.tracker.moduleItemIndex == 0
    ensures Replay(PopThenStep, h, ItemsEvents(items)) ==
              Finished(h.(tracker := Position(h.tracker.moduleIndex + |items|, 0)), false)
    decreases |items|
  {
    if items != [] {
      ItemBlockPopFirstLost(h, items[0]);
      ReplayAppend(PopThenStep, h, ItemEvents(items[0]), ItemsEvents(items[1..]));
      ItemsPopFirstLost(h.(tracker := Position(h.tracker.moduleIndex + 1, 0)), items[1..]);
    }
  }

  /** Between modules: four elements open and the tracker pointing one past
      the last module, at its start. */
  predicate ModuleReady(h: HandlerState) {
    |h.stack| == MODULE_DEPTH - 1 && h.tracker == Position(|h.builder.modules|, 0)
  }

  /** The state after a module block: the module appended, the stack as before. */
  function WithModule(h: HandlerState, m: ModuleBuilder, p: Position): HandlerState {
    h.(builder := h.builder.(modules := h.builder.modules + [m]), tracker := p)
  }

  /** Opening a module and giving it its title, whichever leave rule is used. */
  lemma {:induction false} ModuleOpened(rule: LeaveRule, h: HandlerState, attrs: seq<Attr>, title: string)
    requires ModuleReady(h)
    ensures var h' := h.(builder := h.builder.(modules := h.builder.modules + [ModuleBuilder(title, [])]),
                         stack := h.stack + [Node("item", attrs)]);
            Replay(rule, h, [Start(Node("item", attrs))] + TitleEvents(title)) == Finished(h', false)
            && AtModuleEnd(h')
  {
    var node := Node("item", attrs);
    var evs := [Start(node)] + TitleEvents(title);
    var h1 := Enter(h, node);
    var h2 := Enter(h1, TITLE);
    var h3 := ReceiveChars(h2, title);
    assert h3.stack[5].HasName("title") && h3.stack[4].HasName("item");
    var h4 := Close(rule, h3, "title");
    assert evs == [Start(node), Start(TITLE), Chars(title), End("title")];
    assert Replay(rule, h, evs) == Replay(rule, h1, evs[1..]);
    assert evs[1..][1..] == evs[2..];
    assert Replay(rule, h1, evs[1..]) == Replay(rule, h2, evs[2..]);
    assert evs[2..][1..] == evs[3..];
    assert Replay(rule, h2, evs[2..]) == Replay(rule, h3, evs[3..]);
    assert evs[3..][1..] == [];
    assert Replay(rule, h3, evs[3..]) == Finished(h4, false);
    assert h3.builder.modules == h.builder.modules + [ModuleBuilder(title, [])];
  }

  /** The corrected leave: a module block appends one module holding its
      title and all its items in document order, and the tracker is ready
      for the next module. */
  lemma {:induction false} ModuleStepFirst(h: HandlerState, attrs: seq<Attr>, title: string, items: seq<ItemEntry>)
    requires ModuleReady(h)
    ensures var h' := WithModule(h, ModuleBuilder(title, AllBuilt(items)), Position(|h.builder.modules| + 1, 0));
            Replay(StepThenPop, h, ModuleEvents(attrs, title, items)) == Finished(h', false) && ModuleReady(h')
  {
    var node := Node("item", attrs);
    var opening := [Start(node)] + TitleEvents(title);
    var n := |h.builder.modules|;
    var h1 := h.(builder := h.builder.(modules := h.builder.modules + [ModuleBuilder(title, [])]),
                 stack := h.stack + [node]);
    ModuleOpened(StepThenPop, h, attrs, title);
    ItemsStepFirst(h1, items);
    var h2 := h1.(builder := h1.builder.(modules := h1.builder.modules[n := ModuleBuilder(title, [] + AllBuilt(items))]),
                  tracker := h1.tracker.(moduleItemIndex := |items|));
    ReplayAppend(StepThenPop, h, opening, ItemsEvents(items));
    ReplayAppend(StepThenPop, h, opening + ItemsEvents(items), [End("item")]);
    ReplayClose(StepThenPop, h2, "item");
    assert [] + AllBuilt(items) == AllBuilt(items);
    assert h2.builder.modules == h.builder.modules + [ModuleBuilder(title, AllBuilt(items))];
  }

  /** As written: a module block keeps only its first item, and the tracker
      ends one module further on for every item the module had. */
  lemma {:induction false} ModulePopFirst(h: HandlerState, attrs: seq<Attr>, title: string, items: seq<ItemEntry>)
    requires ModuleReady(h)
    ensures var kept := if items == [] then [] else [Built(items[0])];
            Replay(PopThenStep, h, ModuleEvents(attrs, title, items)) ==
              Finished(WithModule(h, ModuleBuilder(title, kept), Position(|h.builder.modules| + |items|, 0)), false)
  {
    var node := Node("item", attrs);
    var opening := [Start(node)] + TitleEvents(title);
    var n := |h.builder.modules|;
    var h1 := h.(builder := h.builder.(modules := h.builder.modules + [ModuleBuilder(title, [])]),
                 stack := h.stack + [node]);
    ModuleOpened(PopThenStep, h, attrs, title);
    ReplayAppend(PopThenStep, h, opening, ItemsEvents(items));
    ReplayAppend(PopThenStep, h, opening + ItemsEvents(items), [End("item")]);
    var p := Position(n + |items|, 0);
    if items == [] {
      assert ItemsEvents(items) == [];
      assert opening + ItemsEvents(items) == opening;
    } else {
      ItemsPopFirst(h1, items);
    }
    var kept := if items == [] then [] else [Built(items[0])];
    var h2 := h1.(builder := h1.builder.(modules := h.builder.modules + [ModuleBuilder(title, kept)]), tracker := p);
    ReplayClose(PopThenStep, h2, "item");
  }

  /** As written, the items of a freshly opened module: the first is kept and
      every one of them moves the tracker one module on. */
  lemma {:induction false} ItemsPopFirst(h: HandlerState, items: seq<ItemEntry>)
    requires AtModuleEnd(h) && h.builder.modules[h.tracker.moduleIndex].items == [] && items != []
    ensures var i := h.tracker.moduleIndex;
            var m := h.builder.modules[i];
            Replay(PopThenStep, h, ItemsEvents(items)) ==
              Finished(h.(builder := h.builder.(modules := h.builder.modules[i := m.(items := [Built(items[0])])]),
                          tracker := Position(i + |items|, 0)), false)
  {
    var i := h.tracker.moduleIndex;
    var m := h.builder.modules[i];
    var h2 := AppendItem(h, Built(items[0])).(tracker := Position(i + 1, 0));
    var h3 := h2.(tracker := Position(i + 1 + |items[1..]|, 0));
    assert Replay(PopThenStep, h, ItemsEvents(items)) == Replay(PopThenStep, h2, ItemsEvents(items[1..])) by {
      FirstItemPopFirst(h, items);
    }
    assert Replay(PopThenStep, h2, ItemsEvents(items[1..])) == Finished(h3, false) by {
      ItemsPopFirstLost(h2, items[1..]);
    }
    assert h3 == h.(builder := h.builder.(modules := h.builder.modules[i := m.(items := [Built(items[0])])]),
                    tracker := Position(i + |items|, 0)) by {
      KeptFirstItem(h, items);
    }
  }

  // Helper for ItemsPopFirst: the list arithmetic of the first kept item.
  lemma {:induction false} KeptFirstItem(h: HandlerState, items: seq<ItemEntry>)
    requires AtModuleEnd(h) && h.builder.modules[h.tracker.moduleIndex].items == [] && items != []
    ensures var i := h.tracker.moduleIndex;
            var m := h.builder.modules[i];
            AppendItem(h, Built(items[0])).(tracker := Position(i + 1 + |items[1..]|, 0)) ==
              h.(builder := h.builder.(modules := h.builder.modules[i := m.(items := [Built(items[0])])]),
                 tracker := Position(i + |items|, 0))
  {
    var m := h.builder.modules[h.tracker.moduleIndex];
    assert m.items + [Built(items[0])] == [Built(items[0])];
  }

  /** As written, replaying a fresh module's items comes down to replaying
      all but the first from the state the first one leaves. */
  lemma {:induction false} FirstItemPopFirst(h: HandlerState, items: seq<ItemEntry>)
    requires AtModuleEnd(h) && items != []
    ensures var h2 := AppendItem(h, Built(items[0])).(tracker := Position(h.tracker.moduleIndex + 1, 0));
            && |h2.stack| == MODULE_DEPTH && h2.tracker.moduleIndex >= |h2.builder.modules|
            && Replay(PopThenStep, h, ItemsEvents(items)) == Replay(PopThenStep, h2, ItemsEvents(items[1..]))
  {
    assert ItemsEvents(items) == ItemEvents(items[0]) + ItemsEvents(items[1..]);
    ItemBlockPopFirst(h, items[0]);
    ReplayAppend(PopThenStep, h, ItemEvents(items[0]), ItemsEvents(items[1..]));
  }

  /** As written, the tracker is ready for the next module after a module
      block exactly when that module had one item: an empty module leaves it
      on the closed module, and each extra item pushes it one further. */
  lemma {:induction false} PopFirstInStepOnlyForOneItem(h: HandlerState, attrs: seq<Attr>, title: string, items: seq<ItemEntry>)
    requires ModuleReady(h)
    ensures var o := Replay(PopThenStep, h, ModuleEvents(attrs, title, items));
            o.Finished? && (ModuleReady(o.state) <==> |items| == 1)
  {
    ModulePopFirst(h, attrs, title, items);
  }

  /** A resource element without an identifier, at resource depth, stops the
      whole parse, whatever follows it. */
  lemma {:induction false} MissingIdentifierIsFatal(rule: LeaveRule, h: HandlerState, attrs: seq<Attr>, rest: seq<Event>)
    requires |h.stack| == 2
    requires forall i :: 0 <= i < |attrs| ==> attrs[i].localName != "identifier"
    ensures Replay(rule, h, [Start(Node("resource", attrs))] + rest) == Fatal
  {
    assert ([Start(Node("resource", attrs))] + rest)[0] == Start(Node("resource", attrs));
  }
}
