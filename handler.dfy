/** The manifest handler as the object the XML walk drives
    (src/summarize/manifest/handler.rs; the copy in
    src/summarize/manifest.rs behaves identically). Each method is proved to
    move the handler's state exactly as the function of the same name in
    HandlerSpec does. */
module Handler {
  import opened Utils
  import opened Builder
  import opened IndexTracker
  import Spec = HandlerSpec

  class ManifestHandler {
    var builder: ManifestBuilder
    const indexTracker: ModuleIndexTracker
    var stack: seq<Node>

    /** The handler's state as a value. */
    function State(): Spec.HandlerState
      reads this, indexTracker
    {
      Spec.HandlerState(builder, indexTracker.Snapshot(), stack)
    }

    constructor ()
      ensures State() == Spec.INITIAL
      ensures fresh(indexTracker)
    {
      builder := EMPTY_MANIFEST;
      indexTracker := new ModuleIndexTracker();
      stack := [];
    }

    method NewModuleBuilder()
      modifies this
      ensures State() == Spec.NewModuleBuilder(old(State()))
    {
      builder := builder.(modules := builder.modules + [EMPTY_MODULE]);
    }

    method NewModuleItemBuilder(node: Node)
      modifies this
      ensures State() == Spec.NewModuleItemBuilder(old(State()), node)
    {
      var i := indexTracker.moduleIndex;
      if i < |builder.modules| {
        var m := builder.modules[i];
        var item := ModuleItemBuilder("", node.Find("identifierref"));
        builder := builder.(modules := builder.modules[i := m.(items := m.items + [item])]);
      }
    }

    /** Returns false when the resource has no identifier (the fatal case). */
    method NewResource(node: Node) returns (ok: bool)
      modifies this
      ensures ok == ResourceOf(node).Some?
      ensures State() == Spec.NewResource(old(State()), node)
    {
      var resource := ResourceOf(node);
      ok := resource.Some?;
      if ok {
        var r := resource.value;
        builder := builder.(resourcesMap := builder.resourcesMap[r.identifier := r]);
      }
    }

    method AddModuleTitle(chars: string)
      modifies this
      ensures State() == Spec.AddModuleTitle(old(State()), chars)
    {
      var moduleIndex := indexTracker.moduleIndex;
      if moduleIndex < |builder.modules| {
        var m := builder.modules[moduleIndex];
        builder := builder.(modules := builder.modules[moduleIndex := m.(title := chars)]);
      }
    }

    method AddModuleItemTitle(chars: string)
      modifies this
      ensures State() == Spec.AddModuleItemTitle(old(State()), chars)
    {
      var moduleIndex := indexTracker.moduleIndex;
      var moduleItemIndex := indexTracker.moduleItemIndex;
      if moduleIndex < |builder.modules| {
        var m := builder.modules[moduleIndex];
        if moduleItemIndex < |m.items| {
          var item := m.items[moduleItemIndex].(title := chars);
          builder := builder.(modules := builder.modules[moduleIndex := m.(items := m.items[moduleItemIndex := item])]);
        }
      }
    }

    /** `enter`; `ok` is false exactly when a resource without identifier
        is met at resource depth, where the source aborts the parse. */
    method Enter(node: Node) returns (ok: bool)
      modifies this
      ensures ok == !Spec.EnterFails(old(State()), node)
      ensures State() == Spec.Enter(old(State()), node)
    {
      ok := true;
      stack := stack + [node];
      var depth := |stack|;
      if node.name == "item" {
        if depth == MODULE_DEPTH {
          NewModuleBuilder();
        } else if depth == MODULE_ITEM_DEPTH {
          NewModuleItemBuilder(node);
        }
      } else if node.name == "resource" {
        if depth == RESOURCE_DEPTH {
          ok := NewResource(node);
        }
      }
    }

    method Leave(name: string)
      modifies this, indexTracker
      ensures State() == Spec.Leave(old(State()), name)
    {
      if |stack| > 0 {
        stack := stack[..|stack| - 1];
      }
      if name == "item" {
        indexTracker.Step(|stack|);
      }
    }

    method ReceiveChars(chars: string)
      modifies this
      ensures State() == Spec.ReceiveChars(old(State()), chars)
    {
      var numAncestors := |stack|;
      if numAncestors < 2 {
        return;
      }
      if stack[numAncestors - 1].HasName("title") && stack[numAncestors - 2].HasName("item") {
        AttachTitles(this, chars);
        return;
      }
      if numAncestors < 4 {
        return;
      }
      if stack[numAncestors - 4].HasName("lom") {
        FindGeneralData(this, chars);
        return;
      }
    }
  }

  method AttachTitles(handler: ManifestHandler, chars: string)
    modifies handler
    ensures handler.State() == Spec.AttachTitles(old(handler.State()), chars)
  {
    var depth := |handler.stack|;
    if depth == MODULE_DEPTH + 1 {
      handler.AddModuleTitle(chars);
    } else if depth == MODULE_ITEM_DEPTH + 1 {
      handler.AddModuleItemTitle(chars);
    }
  }

  method FindGeneralData(handler: ManifestHandler, chars: string)
    requires |handler.stack| >= 3
    modifies handler
    ensures handler.State() == Spec.FindGeneralData(old(handler.State()), chars)
  {
    var numAncestors := |handler.stack|;
    var currentTag := handler.stack[numAncestors - 1];
    var parentTag := handler.stack[numAncestors - 2];
    var category := handler.stack[numAncestors - 3];
    var general := handler.builder.general;
    if category.HasName("general") {
      if parentTag.HasName("title") && currentTag.HasName("string") {
        handler.builder := handler.builder.(general := general.(title := chars));
      } else if parentTag.HasName("description") && currentTag.HasName("string") {
        handler.builder := handler.builder.(general := general.(description := chars));
      }
    } else if category.HasName("rights") {
      if parentTag.HasName("description") && currentTag.HasName("string") {
        handler.builder := handler.builder.(general := general.(copyright := chars));
      }
    }
  }
}
