/** The manifest handler's transitions as functions of its state: the
    builder, the tracker's counters and the ancestor stack
    (src/summarize/manifest/handler.rs; src/summarize/manifest.rs holds a
    line-for-line copy). The class in module Handler is proved against these. */
module HandlerSpec {
  import opened Utils
  import opened Builder
  import opened IndexTracker

  datatype HandlerState = HandlerState(builder: ManifestBuilder, tracker: Position, stack: seq<Node>)

  const INITIAL: HandlerState := HandlerState(EMPTY_MANIFEST, START, [])

  // ---------------------------------------------------------------------
  // The handler's private helpers
  // ---------------------------------------------------------------------

  /** `new_module_builder`: one fresh module builder at the end. */
  function NewModuleBuilder(h: HandlerState): HandlerState {
    h.(builder := h.builder.(modules := h.builder.modules + [EMPTY_MODULE]))
  }

  /** `new_module_item_builder`: one fresh item, carrying the node's
      `identifierref`, at the end of the module the tracker points at, if
      that module exists. */
  function NewModuleItemBuilder(h: HandlerState, node: Node): HandlerState {
    var i := h.tracker.moduleIndex;
    if i < |h.builder.modules| then
      var m := h.builder.modules[i];
      var item := ModuleItemBuilder("", node.Find("identifierref"));
      h.(builder := h.builder.(modules := h.builder.modules[i := m.(items := m.items + [item])]))
    else h
  }

  /** `new_resource`: registers the resource under its identifier, replacing
      any earlier one with that identifier. */
  function NewResource(h: HandlerState, node: Node): HandlerState {
    match ResourceOf(node)
    case None => h
    case Some(r) => h.(builder := h.builder.(resourcesMap := h.builder.resourcesMap[r.identifier := r]))
  }

  /** `add_module_title`: overwrites the title of the tracked module, if any. */
  function AddModuleTitle(h: HandlerState, chars: string): HandlerState {
    var i := h.tracker.moduleIndex;
    if i < |h.builder.modules| then
      h.(builder := h.builder.(modules := h.builder.modules[i := h.builder.modules[i].(title := chars)]))
    else h
  }

  /** `add_module_item_title`: overwrites the title of the tracked item of the
      tracked module, if both exist. */
  function AddModuleItemTitle(h: HandlerState, chars: string): HandlerState {
    var i, j := h.tracker.moduleIndex, h.tracker.moduleItemIndex;
    if i < |h.builder.modules| && j < |h.builder.modules[i].items| then
      var m := h.builder.modules[i];
      var m' := m.(items := m.items[j := m.items[j].(title := chars)]);
      h.(builder := h.builder.(modules := h.builder.modules[i := m']))
    else h
  }

  // ---------------------------------------------------------------------
  // The event callbacks
  // ---------------------------------------------------------------------

  /** A resource element without an identifier at resource depth: building
      the resource fails and the parse cannot go on. */
  predicate EnterFails(h: HandlerState, node: Node) {
    node.HasName("resource") && |h.stack| + 1 == RESOURCE_DEPTH && ResourceOf(node).None?
  }

  /** `enter`: push the node, then act on items at module and module-item
      depth and on resources at RESOURCE_DEPTH. */
  function Enter(h: HandlerState, node: Node): (r: HandlerState)
    ensures r.stack == h.stack + [node]
    ensures r.tracker == h.tracker
    ensures r.builder.general == h.builder.general
    // an item at module depth opens one fresh module after the existing ones
    ensures node.HasName("item") && |r.stack| == MODULE_DEPTH ==>
              r.builder == h.builder.(modules := h.builder.modules + [EMPTY_MODULE])
    // an item at module-item depth opens one item at the end of the tracked
    // module, when that module exists, and changes nothing else
    ensures node.HasName("item") && |r.stack| == MODULE_ITEM_DEPTH ==>
              && r.builder.resourcesMap == h.builder.resourcesMap
              && |r.builder.modules| == |h.builder.modules|
              && (forall i :: 0 <= i < |h.builder.modules| && i != h.tracker.moduleIndex ==>
                    r.builder.modules[i] == h.builder.modules[i])
              && (h.tracker.moduleIndex < |h.builder.modules| ==>
                    var m := h.builder.modules[h.tracker.moduleIndex];
                    r.builder.modules[h.tracker.moduleIndex] ==
                      m.(items := m.items + [ModuleItemBuilder("", node.Find("identifierref"))]))
              && (h.tracker.moduleIndex >= |h.builder.modules| ==> r.builder == h.builder)
    // a resource at RESOURCE_DEPTH is registered under its identifier, replacing any
    // earlier one
    ensures node.HasName("resource") && |r.stack| == RESOURCE_DEPTH && ResourceOf(node).Some? ==>
              var res := ResourceOf(node).value;
              r.builder == h.builder.(resourcesMap := h.builder.resourcesMap[res.identifier := res])
    // every other element only grows the stack
    ensures (!node.HasName("item") || |r.stack| !in {MODULE_DEPTH, MODULE_ITEM_DEPTH})
            && (!node.HasName("resource") || |r.stack| != RESOURCE_DEPTH)
            ==> r.builder == h.builder
  {
    var pushed := h.(stack := h.stack + [node]);
    var depth := |pushed.stack|;
    if node.HasName("item") then
      if depth == MODULE_DEPTH then NewModuleBuilder(pushed)
      else if depth == MODULE_ITEM_DEPTH then NewModuleItemBuilder(pushed, node)
      else pushed
    else if node.HasName("resource") then
      if depth == RESOURCE_DEPTH then NewResource(pushed, node) else pushed
    else pushed
  }

  /** `leave`: pop, then, for an item, step the tracker with the depth left
      after the pop. Popping an empty stack changes nothing. */
  function Leave(h: HandlerState, name: string): (r: HandlerState)
    ensures r.builder == h.builder
    ensures |h.stack| > 0 ==> r.stack == h.stack[..|h.stack| - 1]
    ensures |h.stack| == 0 ==> r.stack == []
    ensures name != "item" ==> r.tracker == h.tracker
    ensures name == "item" ==> r.tracker == Advance(h.tracker, |r.stack|)
  {
    var popped := if |h.stack| == 0 then h.stack else h.stack[..|h.stack| - 1];
    var h' := h.(stack := popped);
    if name == "item" then h'.(tracker := Advance(h.tracker, |popped|)) else h'
  }

  /** `leave` stepping the tracker before the pop. `enter` tests the stack
      length after its push, which is the element's own depth, against
      MODULE_DEPTH and MODULE_ITEM_DEPTH; stepping with the depth of the
      element being closed, then popping, gives `step` that same depth.
      Closing a module item then advances the item counter and closing a
      module advances the module counter. */
  function LeaveStepFirst(h: HandlerState, name: string): (r: HandlerState)
    ensures r.builder == h.builder
    ensures |h.stack| > 0 ==> r.stack == h.stack[..|h.stack| - 1]
    ensures |h.stack| == 0 ==> r.stack == []
    ensures name != "item" ==> r.tracker == h.tracker
    ensures name == "item" ==> r.tracker == Advance(h.tracker, |h.stack|)
  {
    var popped := if |h.stack| == 0 then h.stack else h.stack[..|h.stack| - 1];
    var stepped := if name == "item" then Advance(h.tracker, |h.stack|) else h.tracker;
    h.(stack := popped, tracker := stepped)
  }

  /** `attach_titles`: title text goes to the module at module depth + 1 and
      to the item at module-item depth + 1; elsewhere it is dropped. */
  function AttachTitles(h: HandlerState, chars: string): HandlerState {
    var depth := |h.stack|;
    if depth == MODULE_DEPTH + 1 then AddModuleTitle(h, chars)
    else if depth == MODULE_ITEM_DEPTH + 1 then AddModuleItemTitle(h, chars)
    else h
  }

  /** `find_general_data`: under a LOM record, general/title/string sets the
      title, general/description/string the description and
      rights/description/string the copyright. The three innermost stack
      entries must exist (the code unwraps them). */
  function FindGeneralData(h: HandlerState, chars: string): HandlerState
    requires |h.stack| >= 3
  {
    var n := |h.stack|;
    var currentTag, parentTag, category := h.stack[n - 1], h.stack[n - 2], h.stack[n - 3];
    var g := h.builder.general;
    if category.HasName("general") then
      if parentTag.HasName("title") && currentTag.HasName("string") then
        h.(builder := h.builder.(general := g.(title := chars)))
      else if parentTag.HasName("description") && currentTag.HasName("string") then
        h.(builder := h.builder.(general := g.(description := chars)))
      else h
    else if category.HasName("rights") then
      if parentTag.HasName("description") && currentTag.HasName("string") then
        h.(builder := h.builder.(general := g.(copyright := chars)))
      else h
    else h
  }

  /** The innermost open element is a title whose parent is an item. */
  predicate InItemTitle(h: HandlerState) {
    |h.stack| >= 2 && h.stack[|h.stack| - 1].HasName("title") && h.stack[|h.stack| - 2].HasName("item")
  }

  /** Not an item title, and a LOM record is open four levels up. */
  predicate InLomLeaf(h: HandlerState) {
    !InItemTitle(h) && |h.stack| >= 4 && h.stack[|h.stack| - 4].HasName("lom")
  }

  /** The innermost three open elements are, outermost first, `a`, `b`, `c`. */
  predicate EndsWith(h: HandlerState, a: string, b: string, c: string) {
    var n := |h.stack|;
    n >= 3 && h.stack[n - 3].HasName(a) && h.stack[n - 2].HasName(b) && h.stack[n - 1].HasName(c)
  }

  /** `receive_chars`: text under an item's title goes to attach_titles,
      text four levels under a LOM record to find_general_data, and any
      other text is dropped. The stack, the tracker, the module count and the
      resources never change. */
  function ReceiveChars(h: HandlerState, chars: string): (r: HandlerState)
    ensures r.stack == h.stack && r.tracker == h.tracker
    ensures |r.builder.modules| == |h.builder.modules|
    ensures forall i :: 0 <= i < |h.builder.modules| ==>
              |r.builder.modules[i].items| == |h.builder.modules[i].items|
    ensures r.builder.resourcesMap == h.builder.resourcesMap
    ensures |h.stack| < 2 ==> r == h
    // a module's title: the tracked module, if it exists, takes the text
    ensures InItemTitle(h) && |h.stack| == MODULE_DEPTH + 1 ==>
              var i := h.tracker.moduleIndex;
              if i < |h.builder.modules| then
                r.builder == h.builder.(modules := h.builder.modules[i := h.builder.modules[i].(title := chars)])
              else r == h
    // an item's title: the tracked item of the tracked module, if both exist
    ensures InItemTitle(h) && |h.stack| == MODULE_ITEM_DEPTH + 1 ==>
              var i, j := h.tracker.moduleIndex, h.tracker.moduleItemIndex;
              if i < |h.builder.modules| && j < |h.builder.modules[i].items| then
                && r.builder.general == h.builder.general
                && r.builder.modules[i].title == h.builder.modules[i].title
                && r.builder.modules[i].items[j] == h.builder.modules[i].items[j].(title := chars)
                && (forall k :: 0 <= k < |h.builder.modules| && k != i ==> r.builder.modules[k] == h.builder.modules[k])
                && (forall k :: 0 <= k < |h.builder.modules[i].items| && k != j ==>
                      r.builder.modules[i].items[k] == h.builder.modules[i].items[k])
              else r == h
    // titles at any other depth are dropped
    ensures InItemTitle(h) && |h.stack| != MODULE_DEPTH + 1 && |h.stack| != MODULE_ITEM_DEPTH + 1 ==> r == h
    // LOM metadata: three shapes set one general field each; nothing else changes
    ensures InLomLeaf(h) ==>
              var g := h.builder.general;
              if EndsWith(h, "general", "title", "string") then r == h.(builder := h.builder.(general := g.(title := chars)))
              else if EndsWith(h, "general", "description", "string") then
                r == h.(builder := h.builder.(general := g.(description := chars)))
              else if EndsWith(h, "rights", "description", "string") then
                r == h.(builder := h.builder.(general := g.(copyright := chars)))
              else r == h
    // any other text is dropped
    ensures !InItemTitle(h) && !InLomLeaf(h) ==> r == h
  {
    var n := |h.stack|;
    if n < 2 then h
    else if h.stack[n - 1].HasName("title") && h.stack[n - 2].HasName("item") then AttachTitles(h, chars)
    else if n < 4 then h
    else if h.stack[n - 4].HasName("lom") then FindGeneralData(h, chars)
    else h
  }
}
