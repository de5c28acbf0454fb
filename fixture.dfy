/** The test manifest of src/summarize/manifest/mod.rs replayed through the
    handler: its metadata record, its organization tree (under the code's
    leave and under the corrected one), its resources, and the whole
    document. Whitespace between elements is left out: the reader reports it
    as events the handler ignores. */
module ManifestFixture {
  import opened Utils
  import opened Builder
  import opened IndexTracker
  import opened HandlerSpec
  import opened HandlerProps

  // -----------------------------------------------------------------------
  // Plain elements: neither items nor resources
  // -----------------------------------------------------------------------

  predicate Plain(name: string) {
    name != "item" && name != "resource"
  }

  /** `<name>text</name>` */
  function Leaf(name: string, text: string): seq<Event> {
    [Start(Node(name, [])), Chars(text), End(name)]
  }

  /** `<name>inner</name>` */
  function Wrap(name: string, inner: seq<Event>): seq<Event> {
    [Start(Node(name, []))] + inner + [End(name)]
  }

  /** A plain element holding only text: the handler sees the text with the
      element open, and nothing but the text can change the builder. */
  lemma {:induction false} LeafReplay(rule: LeaveRule, h: HandlerState, name: string, text: string)
    requires Plain(name)
    ensures Replay(rule, h, Leaf(name, text)) ==
              Finished(ReceiveChars(h.(stack := h.stack + [Node(name, [])]), text).(stack := h.stack), false)
  {
    var evs := Leaf(name, text);
    var h1 := Enter(h, Node(name, []));
    var h2 := ReceiveChars(h1, text);
    assert h1 == h.(stack := h.stack + [Node(name, [])]);
    assert Replay(rule, h, evs) == Replay(rule, h1, evs[1..]);
    assert evs[1..][1..] == [End(name)];
    assert Replay(rule, h1, evs[1..]) == Replay(rule, h2, [End(name)]);
    ReplayClose(rule, h2, name);
  }

  /** A plain element around other events: opening and closing it only
      pushes and pops it. */
  lemma {:induction false} WrapReplay(rule: LeaveRule, h: HandlerState, name: string, inner: seq<Event>, h2: HandlerState)
    requires Plain(name)
    requires Replay(rule, h.(stack := h.stack + [Node(name, [])]), inner) == Finished(h2, false)
    requires h2.stack == h.stack + [Node(name, [])]
    ensures Replay(rule, h, Wrap(name, inner)) == Finished(h2.(stack := h.stack), false)
  {
    var h1 := h.(stack := h.stack + [Node(name, [])]);
    assert Replay(rule, h, [Start(Node(name, []))]) == Finished(h1, false) by {
      assert [Start(Node(name, []))][1..] == [];
    }
    ReplayThen(rule, h, [Start(Node(name, []))], inner, h1, h2);
    ReplayClose(rule, h2, name);
    assert h2.stack[..|h2.stack| - 1] == h.stack;
    ReplayThen(rule, h, [Start(Node(name, []))] + inner, [End(name)], h2, h2.(stack := h.stack));
  }

  // -----------------------------------------------------------------------
  // The metadata record of the test manifest
  // -----------------------------------------------------------------------

  /** Where text inside a LOM record lands: the general field a
      category/parent/leaf path names, or nowhere. */
  function LomField(category: string, parent: string, leaf: string, text: string, g: General): General {
    if category == "general" && parent == "title" && leaf == "string" then g.(title := text)
    else if category == "general" && parent == "description" && leaf == "string" then g.(description := text)
    else if category == "rights" && parent == "description" && leaf == "string" then g.(copyright := text)
    else g
  }

  /** `<parent><leaf>text</leaf></parent>` inside a category of a LOM record
      sets the general field that path names, or nothing. */
  lemma {:induction false} LomLeaf(rule: LeaveRule, h: HandlerState, parent: string, leaf: string, text: string)
    requires Plain(parent) && Plain(leaf)
    requires |h.stack| >= 2 && h.stack[|h.stack| - 2].HasName("lom")
    ensures Replay(rule, h, Wrap(parent, Leaf(leaf, text))) ==
              Finished(h.(builder := h.builder.(general := LomField(h.stack[|h.stack| - 1].name, parent, leaf, text,
                                                                    h.builder.general))), false)
  {
    var hp := h.(stack := h.stack + [Node(parent, [])]);
    var hc := hp.(stack := hp.stack + [Node(leaf, [])]);
    var g := LomField(h.stack[|h.stack| - 1].name, parent, leaf, text, h.builder.general);
    assert InLomLeaf(hc) && hc.stack[|hc.stack| - 3] == h.stack[|h.stack| - 1];
    assert ReceiveChars(hc, text) == hc.(builder := hc.builder.(general := g));
    LeafReplay(rule, hp, leaf, text);
    WrapReplay(rule, h, parent, Leaf(leaf, text), hp.(builder := hp.builder.(general := g)));
  }

  /** `<general><title><string>A Course</string></title><description>...` */
  function GeneralEvents(): seq<Event> {
    Wrap("general", Wrap("title", Leaf("string", "A Course")) + Wrap("description", Leaf("string", "test this course")))
  }

  lemma {:induction false} GeneralBlock(rule: LeaveRule, h: HandlerState)
    requires |h.stack| >= 1 && h.stack[|h.stack| - 1].HasName("lom")
    ensures Replay(rule, h, GeneralEvents()) ==
              Finished(h.(builder := h.builder.(general := h.builder.general.(title := "A Course",
                                                                               description := "test this course"))), false)
  {
    var hg := h.(stack := h.stack + [Node("general", [])]);
    var g1 := h.builder.general.(title := "A Course");
    var g2 := g1.(description := "test this course");
    LomLeaf(rule, hg, "title", "string", "A Course");
    LomLeaf(rule, hg.(builder := hg.builder.(general := g1)), "description", "string", "test this course");
    ReplayThen(rule, hg, Wrap("title", Leaf("string", "A Course")), Wrap("description", Leaf("string", "test this course")),
               hg.(builder := hg.builder.(general := g1)), hg.(builder := hg.builder.(general := g2)));
    WrapReplay(rule, h, "general", Wrap("title", Leaf("string", "A Course")) + Wrap("description", Leaf("string", "test this course")),
               hg.(builder := hg.builder.(general := g2)));
  }

  /** `<lifeCycle><contribute><date><dateTime>2016-03-15</dateTime>...` */
  function LifeCycleEvents(): seq<Event> {
    Wrap("lifeCycle", Wrap("contribute", Wrap("date", Leaf("dateTime", "2016-03-15"))))
  }

  /** The date sits five levels under the LOM record, too deep to be read. */
  lemma {:induction false} LifeCycleBlock(rule: LeaveRule, h: HandlerState)
    ensures Replay(rule, h, LifeCycleEvents()) == Finished(h, false)
  {
    var h1 := h.(stack := h.stack + [Node("lifeCycle", [])]);
    var h2 := h1.(stack := h1.stack + [Node("contribute", [])]);
    var h3 := h2.(stack := h2.stack + [Node("date", [])]);
    var h4 := h3.(stack := h3.stack + [Node("dateTime", [])]);
    assert !InItemTitle(h4) && !InLomLeaf(h4) by {
      assert h4.stack[|h4.stack| - 4] == Node("lifeCycle", []);
    }
    LeafReplay(rule, h3, "dateTime", "2016-03-15");
    WrapReplay(rule, h2, "date", Leaf("dateTime", "2016-03-15"), h3);
    WrapReplay(rule, h1, "contribute", Wrap("date", Leaf("dateTime", "2016-03-15")), h2);
    WrapReplay(rule, h, "lifeCycle", Wrap("contribute", Wrap("date", Leaf("dateTime", "2016-03-15"))), h1);
  }

  /** `<rights><copyrightAndOtherRestrictions><value>yes</value>...<description><string>Private</string>...` */
  function RightsEvents(): seq<Event> {
    Wrap("rights", Wrap("copyrightAndOtherRestrictions", Leaf("value", "yes")) + Wrap("description", Leaf("string", "Private")))
  }

  lemma {:induction false} RightsBlock(rule: LeaveRule, h: HandlerState)
    requires |h.stack| >= 1 && h.stack[|h.stack| - 1].HasName("lom")
    ensures Replay(rule, h, RightsEvents()) ==
              Finished(h.(builder := h.builder.(general := h.builder.general.(copyright := "Private"))), false)
  {
    var hr := h.(stack := h.stack + [Node("rights", [])]);
    var g := h.builder.general.(copyright := "Private");
    LomLeaf(rule, hr, "copyrightAndOtherRestrictions", "value", "yes");
    assert hr.(builder := hr.builder.(general := hr.builder.general)) == hr;
    LomLeaf(rule, hr, "description", "string", "Private");
    ReplayThen(rule, hr, Wrap("copyrightAndOtherRestrictions", Leaf("value", "yes")), Wrap("description", Leaf("string", "Private")),
               hr, hr.(builder := hr.builder.(general := g)));
    WrapReplay(rule, h, "rights", Wrap("copyrightAndOtherRestrictions", Leaf("value", "yes")) + Wrap("description", Leaf("string", "Private")),
               hr.(builder := hr.builder.(general := g)));
  }

  /** The LOM record: the general and rights categories around the life cycle. */
  lemma {:induction false} LomBlock(rule: LeaveRule, h: HandlerState)
    ensures Replay(rule, h, Wrap("lom", GeneralEvents() + LifeCycleEvents() + RightsEvents())) ==
              Finished(h.(builder := h.builder.(general := General("A Course", "test this course", "Private"))), false)
  {
    var hl := h.(stack := h.stack + [Node("lom", [])]);
    var g1 := hl.builder.general.(title := "A Course", description := "test this course");
    var h1 := hl.(builder := hl.builder.(general := g1));
    var h2 := hl.(builder := hl.builder.(general := General("A Course", "test this course", "Private")));
    GeneralBlock(rule, hl);
    LifeCycleBlock(rule, h1);
    ReplayThen(rule, hl, GeneralEvents(), LifeCycleEvents(), h1, h1);
    RightsBlock(rule, h1);
    ReplayThen(rule, hl, GeneralEvents() + LifeCycleEvents(), RightsEvents(), h1, h2);
    WrapReplay(rule, h, "lom", GeneralEvents() + LifeCycleEvents() + RightsEvents(), h2);
  }

  /** `<metadata><schema>...</schema><schemaversion>...</schemaversion><lom>...</lom></metadata>` */
  function MetadataEvents(): seq<Event> {
    Wrap("metadata", Leaf("schema", "IMS Common Cartridge") + Leaf("schemaversion", "1.1.0")
                     + Wrap("lom", GeneralEvents() + LifeCycleEvents() + RightsEvents()))
  }

  /** Whatever the metadata held before, the test manifest's metadata record
      leaves the title "A Course", the description "test this course" and
      the copyright "Private", and nothing else changes. */
  lemma {:induction false} MetadataGeneral(rule: LeaveRule, h: HandlerState)
    requires |h.stack| == 1
    ensures Replay(rule, h, MetadataEvents()) ==
              Finished(h.(builder := h.builder.(general := General("A Course", "test this course", "Private"))), false)
  {
    var hm := h.(stack := h.stack + [Node("metadata", [])]);
    var h2 := hm.(builder := hm.builder.(general := General("A Course", "test this course", "Private")));
    assert ReceiveChars(hm.(stack := hm.stack + [Node("schema", [])]), "IMS Common Cartridge")
        == hm.(stack := hm.stack + [Node("schema", [])]);
    LeafReplay(rule, hm, "schema", "IMS Common Cartridge");
    assert ReceiveChars(hm.(stack := hm.stack + [Node("schemaversion", [])]), "1.1.0")
        == hm.(stack := hm.stack + [Node("schemaversion", [])]);
    LeafReplay(rule, hm, "schemaversion", "1.1.0");
    ReplayThen(rule, hm, Leaf("schema", "IMS Common Cartridge"), Leaf("schemaversion", "1.1.0"), hm, hm);
    LomBlock(rule, hm);
    ReplayThen(rule, hm, Leaf("schema", "IMS Common Cartridge") + Leaf("schemaversion", "1.1.0"),
               Wrap("lom", GeneralEvents() + LifeCycleEvents() + RightsEvents()), hm, h2);
    WrapReplay(rule, h, "metadata", Leaf("schema", "IMS Common Cartridge") + Leaf("schemaversion", "1.1.0")
                                    + Wrap("lom", GeneralEvents() + LifeCycleEvents() + RightsEvents()), h2);
  }

  // -----------------------------------------------------------------------
  // The organization tree of the test manifest (manifest/mod.rs)
  // -----------------------------------------------------------------------

  const MOD_DEBUG: ItemEntry := ItemEntry(
    [Attr("identifier", "ib3ace830fa129c9d1c24702eebf3ebb4"), Attr("identifierref", "ib81691c293cfcd8474622cfd8c0047f5")],
    "mod debug")
  const ASSIGNMENT_1: ItemEntry := ItemEntry(
    [Attr("identifier", "i6760f3c4e14f35246d3c1b0cdab71787"), Attr("identifierref", "i86ed42b01897fba5a7126d18558fd7a8")],
    "Assignment 1")
  const QUIZ_1: ItemEntry := ItemEntry(
    [Attr("identifier", "i922878463b7905cdaec01dc3883cc08d"), Attr("identifierref", "i5ae2ebabbdca02262357c21db54aec9b")],
    "Quiz 1")
  const MOD_TESTING_ATTRS: seq<Attr> := [Attr("identifier", "id7d0efe702450aa5e9e1664dfeaa94ee")]
  const MODULE_1_ATTRS: seq<Attr> := [Attr("identifier", "i1ca3ec3f790e6285369f267c1be1a022")]

  /** `<organizations><organization ...><item identifier="LearningModules">` */
  const ORGANIZATIONS_OPEN: seq<Event> := [
    Start(Node("organizations", [])),
    Start(Node("organization", [Attr("identifier", "org_1"), Attr("structure", "rooted-hierarchy")])),
    Start(Node("item", [Attr("identifier", "LearningModules")]))
  ]
  const ORGANIZATIONS_CLOSE: seq<Event> := [End("item"), End("organization"), End("organizations")]

  /** The organization tree of the test manifest, whitespace left out (the
      reader reports it as events the handler ignores). */
  function OrganizationsEvents(): seq<Event> {
    ORGANIZATIONS_OPEN
    + (ModuleEvents(MOD_TESTING_ATTRS, "Mod Testing", [MOD_DEBUG])
       + ModuleEvents(MODULE_1_ATTRS, "Module 1", [ASSIGNMENT_1, QUIZ_1]))
    + ORGANIZATIONS_CLOSE
  }

  lemma {:induction false} OrganizationsOpened(rule: LeaveRule, h: HandlerState)
    requires |h.stack| == 1 && h.tracker == START && h.builder.modules == []
    ensures var h' := h.(stack := h.stack + [Node("organizations", []),
                                             Node("organization", [Attr("identifier", "org_1"), Attr("structure", "rooted-hierarchy")]),
                                             Node("item", [Attr("identifier", "LearningModules")])]);
            Replay(rule, h, ORGANIZATIONS_OPEN) == Finished(h', false) && ModuleReady(h')
  {
    var evs := ORGANIZATIONS_OPEN;
    var h1 := Enter(h, evs[0].node);
    var h2 := Enter(h1, evs[1].node);
    var h3 := Enter(h2, evs[2].node);
    assert Replay(rule, h, evs) == Replay(rule, h1, evs[1..]);
    assert evs[1..][1..] == evs[2..];
    assert Replay(rule, h1, evs[1..]) == Replay(rule, h2, evs[2..]);
    assert evs[2..][1..] == [];
    assert Replay(rule, h2, evs[2..]) == Finished(h3, false);
  }

  lemma {:induction false} OrganizationsClosed(rule: LeaveRule, h: HandlerState)
    requires |h.stack| == MODULE_DEPTH - 1
    ensures Replay(rule, h, ORGANIZATIONS_CLOSE) == Finished(h.(stack := h.stack[..1]), false)
  {
    var evs := ORGANIZATIONS_CLOSE;
    var h1 := Close(rule, h, "item");
    var h2 := Close(rule, h1, "organization");
    var h3 := Close(rule, h2, "organizations");
    assert Replay(rule, h, evs) == Replay(rule, h1, evs[1..]);
    assert evs[1..][1..] == evs[2..];
    assert Replay(rule, h1, evs[1..]) == Replay(rule, h2, evs[2..]);
    assert evs[2..][1..] == [];
    assert Replay(rule, h2, evs[2..]) == Finished(h3, false);
    assert h1.stack == h.stack[..3] && h1.tracker == h.tracker;
    assert h2.stack == h.stack[..2] && h2.tracker == h.tracker;
    assert h3.stack == h.stack[..1] && h3.tracker == h.tracker;
  }

  /** Two modules in a row, as written: the first, with its one item, leaves
      the tracker ready for the second, which keeps only its first item. */
  lemma {:induction false} TwoModulesPopFirst(h: HandlerState, a1: seq<Attr>, t1: string, i1: seq<ItemEntry>,
                                              a2: seq<Attr>, t2: string, i2: seq<ItemEntry>)
    requires ModuleReady(h) && |i1| == 1 && i2 != []
    ensures Replay(PopThenStep, h, ModuleEvents(a1, t1, i1) + ModuleEvents(a2, t2, i2)) ==
              Finished(h.(builder := h.builder.(modules := h.builder.modules + [ModuleBuilder(t1, [Built(i1[0])]),
                                                                                ModuleBuilder(t2, [Built(i2[0])])]),
                          tracker := Position(|h.builder.modules| + 1 + |i2|, 0)), false)
  {
    var n := |h.builder.modules|;
    var h2 := WithModule(h, ModuleBuilder(t1, [Built(i1[0])]), Position(n + 1, 0));
    var h3 := WithModule(h2, ModuleBuilder(t2, [Built(i2[0])]), Position(n + 1 + |i2|, 0));
    ModulePopFirst(h, a1, t1, i1);
    ModulePopFirst(h2, a2, t2, i2);
    ReplayThen(PopThenStep, h, ModuleEvents(a1, t1, i1), ModuleEvents(a2, t2, i2), h2, h3);
    assert h.builder.modules + [ModuleBuilder(t1, [Built(i1[0])])] + [ModuleBuilder(t2, [Built(i2[0])])]
        == h.builder.modules + [ModuleBuilder(t1, [Built(i1[0])]), ModuleBuilder(t2, [Built(i2[0])])];
  }

  /** Two modules in a row with the corrected leave: both keep all their items. */
  lemma {:induction false} TwoModulesStepFirst(h: HandlerState, a1: seq<Attr>, t1: string, i1: seq<ItemEntry>,
                                               a2: seq<Attr>, t2: string, i2: seq<ItemEntry>)
    requires ModuleReady(h)
    ensures Replay(StepThenPop, h, ModuleEvents(a1, t1, i1) + ModuleEvents(a2, t2, i2)) ==
              Finished(h.(builder := h.builder.(modules := h.builder.modules + [ModuleBuilder(t1, AllBuilt(i1)),
                                                                                ModuleBuilder(t2, AllBuilt(i2))]),
                          tracker := Position(|h.builder.modules| + 2, 0)), false)
  {
    var n := |h.builder.modules|;
    var h2 := WithModule(h, ModuleBuilder(t1, AllBuilt(i1)), Position(n + 1, 0));
    var h3 := WithModule(h2, ModuleBuilder(t2, AllBuilt(i2)), Position(n + 2, 0));
    ModuleStepFirst(h, a1, t1, i1);
    ModuleStepFirst(h2, a2, t2, i2);
    ReplayThen(StepThenPop, h, ModuleEvents(a1, t1, i1), ModuleEvents(a2, t2, i2), h2, h3);
    assert h.builder.modules + [ModuleBuilder(t1, AllBuilt(i1))] + [ModuleBuilder(t2, AllBuilt(i2))]
        == h.builder.modules + [ModuleBuilder(t1, AllBuilt(i1)), ModuleBuilder(t2, AllBuilt(i2))];
  }

  /** The state inside the test manifest's root item, before its modules. */
  function InOrganization(h: HandlerState): HandlerState {
    h.(stack := h.stack + [Node("organizations", []),
                           Node("organization", [Attr("identifier", "org_1"), Attr("structure", "rooted-hierarchy")]),
                           Node("item", [Attr("identifier", "LearningModules")])])
  }

  /** The organization tree around some events: opening it and closing it
      leaves only the effect of the events inside. */
  lemma {:induction false} AroundModules(rule: LeaveRule, h: HandlerState, mid: seq<Event>, h3: HandlerState)
    requires |h.stack| == 1 && h.tracker == START && h.builder.modules == []
    requires h3.stack == InOrganization(h).stack
    requires Replay(rule, InOrganization(h), mid) == Finished(h3, false)
    ensures Replay(rule, h, ORGANIZATIONS_OPEN + mid + ORGANIZATIONS_CLOSE) == Finished(h3.(stack := h.stack), false)
  {
    OrganizationsOpened(rule, h);
    ReplayThen(rule, h, ORGANIZATIONS_OPEN, mid, InOrganization(h), h3);
    OrganizationsClosed(rule, h3);
    ReplayThen(rule, h, ORGANIZATIONS_OPEN + mid, ORGANIZATIONS_CLOSE, h3, h3.(stack := h3.stack[..1]));
    assert h3.stack[..1] == h.stack;
  }


  /** A whole organization tree holding two modules, as written. */
  lemma {:induction false} TreePopFirst(h: HandlerState, a1: seq<Attr>, t1: string, i1: seq<ItemEntry>,
                                        a2: seq<Attr>, t2: string, i2: seq<ItemEntry>)
    requires |h.stack| == 1 && h.tracker == START && h.builder.modules == []
    requires |i1| == 1 && i2 != []
    ensures Replay(PopThenStep, h, ORGANIZATIONS_OPEN + (ModuleEvents(a1, t1, i1) + ModuleEvents(a2, t2, i2)) + ORGANIZATIONS_CLOSE) ==
              Finished(h.(builder := h.builder.(modules := [ModuleBuilder(t1, [Built(i1[0])]), ModuleBuilder(t2, [Built(i2[0])])]),
                          tracker := Position(1 + |i2|, 0)), false)
  {
    var h1 := InOrganization(h);
    TwoModulesPopFirst(h1, a1, t1, i1, a2, t2, i2);
    assert h1.builder.modules + [ModuleBuilder(t1, [Built(i1[0])]), ModuleBuilder(t2, [Built(i2[0])])]
        == [ModuleBuilder(t1, [Built(i1[0])]), ModuleBuilder(t2, [Built(i2[0])])];
    AroundModules(PopThenStep, h, ModuleEvents(a1, t1, i1) + ModuleEvents(a2, t2, i2),
                  h1.(builder := h1.builder.(modules := [ModuleBuilder(t1, [Built(i1[0])]), ModuleBuilder(t2, [Built(i2[0])])]),
                      tracker := Position(1 + |i2|, 0)));
  }

  /** A whole organization tree holding two modules, with the corrected leave. */
  lemma {:induction false} TreeStepFirst(h: HandlerState, a1: seq<Attr>, t1: string, i1: seq<ItemEntry>,
                                         a2: seq<Attr>, t2: string, i2: seq<ItemEntry>)
    requires |h.stack| == 1 && h.tracker == START && h.builder.modules == []
    ensures Replay(StepThenPop, h, ORGANIZATIONS_OPEN + (ModuleEvents(a1, t1, i1) + ModuleEvents(a2, t2, i2)) + ORGANIZATIONS_CLOSE) ==
              Finished(h.(builder := h.builder.(modules := [ModuleBuilder(t1, AllBuilt(i1)), ModuleBuilder(t2, AllBuilt(i2))]),
                          tracker := Position(2, 0)), false)
  {
    var h1 := InOrganization(h);
    TwoModulesStepFirst(h1, a1, t1, i1, a2, t2, i2);
    assert h1.builder.modules + [ModuleBuilder(t1, AllBuilt(i1)), ModuleBuilder(t2, AllBuilt(i2))]
        == [ModuleBuilder(t1, AllBuilt(i1)), ModuleBuilder(t2, AllBuilt(i2))];
    AroundModules(StepThenPop, h, ModuleEvents(a1, t1, i1) + ModuleEvents(a2, t2, i2),
                  h1.(builder := h1.builder.(modules := [ModuleBuilder(t1, AllBuilt(i1)), ModuleBuilder(t2, AllBuilt(i2))]),
                      tracker := Position(2, 0)));
  }

  /** As written, the test manifest's organization tree yields both modules
      with their titles, but "Module 1" loses its second item, "Quiz 1": the
      module counter has already moved past it when that item opens. */
  lemma {:induction false} OrganizationsPopFirst(h: HandlerState)
    requires |h.stack| == 1 && h.tracker == START && h.builder.modules == []
    ensures Replay(PopThenStep, h, OrganizationsEvents()) ==
              Finished(h.(builder := h.builder.(modules := [
                 ModuleBuilder("Mod Testing", [ModuleItemBuilder("mod debug", Some("ib81691c293cfcd8474622cfd8c0047f5"))]),
                 ModuleBuilder("Module 1", [ModuleItemBuilder("Assignment 1", Some("i86ed42b01897fba5a7126d18558fd7a8"))])]),
                 tracker := Position(3, 0)), false)
  {
    TreePopFirst(h, MOD_TESTING_ATTRS, "Mod Testing", [MOD_DEBUG], MODULE_1_ATTRS, "Module 1", [ASSIGNMENT_1, QUIZ_1]);
    FixtureItemsBuilt();
  }

  /** With the corrected leave, the same tree yields both modules with all
      their items, "Quiz 1" included, and the tracker ends ready for a third. */
  lemma {:induction false} OrganizationsStepFirst(h: HandlerState)
    requires |h.stack| == 1 && h.tracker == START && h.builder.modules == []
    ensures Replay(StepThenPop, h, OrganizationsEvents()) ==
              Finished(h.(builder := h.builder.(modules := [
                 ModuleBuilder("Mod Testing", [ModuleItemBuilder("mod debug", Some("ib81691c293cfcd8474622cfd8c0047f5"))]),
                 ModuleBuilder("Module 1", [ModuleItemBuilder("Assignment 1", Some("i86ed42b01897fba5a7126d18558fd7a8")),
                                            ModuleItemBuilder("Quiz 1", Some("i5ae2ebabbdca02262357c21db54aec9b"))])]),
                 tracker := Position(2, 0)), false)
  {
    TreeStepFirst(h, MOD_TESTING_ATTRS, "Mod Testing", [MOD_DEBUG], MODULE_1_ATTRS, "Module 1", [ASSIGNMENT_1, QUIZ_1]);
    FixtureItemsBuilt();
  }

  /** The item builders the test manifest's items produce. */
  lemma {:induction false} FixtureItemsBuilt()
    ensures Built(MOD_DEBUG) == ModuleItemBuilder("mod debug", Some("ib81691c293cfcd8474622cfd8c0047f5"))
    ensures Built(ASSIGNMENT_1) == ModuleItemBuilder("Assignment 1", Some("i86ed42b01897fba5a7126d18558fd7a8"))
    ensures AllBuilt([MOD_DEBUG]) == [ModuleItemBuilder("mod debug", Some("ib81691c293cfcd8474622cfd8c0047f5"))]
    ensures AllBuilt([ASSIGNMENT_1, QUIZ_1]) == [ModuleItemBuilder("Assignment 1", Some("i86ed42b01897fba5a7126d18558fd7a8")),
                                                 ModuleItemBuilder("Quiz 1", Some("i5ae2ebabbdca02262357c21db54aec9b"))]
  {
    assert [MOD_DEBUG][1..] == [];
    assert [ASSIGNMENT_1, QUIZ_1][1..] == [QUIZ_1];
    assert [QUIZ_1][1..] == [];
  }

  // -----------------------------------------------------------------------
  // The resources of the test manifest
  // -----------------------------------------------------------------------

  /** A resource as the manifest declares it: its attributes and the empty
      elements (files, dependencies) inside it. */
  datatype ResourceEntry = ResourceEntry(attrs: seq<Attr>, parts: seq<Node>)

  /** `<part .../>` for each part, in order. */
  function PartsEvents(parts: seq<Node>): seq<Event> {
    if parts == [] then [] else [Start(parts[0]), End(parts[0].name)] + PartsEvents(parts[1..])
  }

  function ResourceEvents(e: ResourceEntry): seq<Event> {
    [Start(Node("resource", e.attrs))] + PartsEvents(e.parts) + [End("resource")]
  }

  function ResourcesEvents(es: seq<ResourceEntry>): seq<Event> {
    if es == [] then [] else ResourceEvents(es[0]) + ResourcesEvents(es[1..])
  }

  predicate PlainParts(parts: seq<Node>) {
    forall i :: 0 <= i < |parts| ==> Plain(parts[i].name)
  }

  /** Every resource has an identifier and only plain parts. */
  predicate WellFormed(es: seq<ResourceEntry>) {
    forall i :: 0 <= i < |es| ==> Node("resource", es[i].attrs).Find("identifier").Some? && PlainParts(es[i].parts)
  }

  /** The resource map after registering each resource in turn. */
  function Registered(m: map<string, Resource>, es: seq<ResourceEntry>): map<string, Resource>
    decreases |es|
  {
    if es == [] then m
    else match ResourceOf(Node("resource", es[0].attrs))
      case Some(r) => Registered(m[r.identifier := r], es[1..])
      case None => Registered(m, es[1..])
  }

  /** The identifier a resource declares. */
  function Id(e: ResourceEntry): string
    requires Node("resource", e.attrs).Find("identifier").Some?
  {
    Node("resource", e.attrs).Find("identifier").value
  }

  /** No two resources declare the same identifier. */
  predicate DistinctIds(es: seq<ResourceEntry>)
    requires WellFormed(es)
  {
    forall i, j :: 0 <= i < j < |es| ==> Id(es[i]) != Id(es[j])
  }

  /** Empty elements below a resource change nothing but the stack, which
      they leave as they found it. */
  lemma {:induction false} PartsReplay(rule: LeaveRule, h: HandlerState, parts: seq<Node>)
    requires |h.stack| == 3 && PlainParts(parts)
    ensures Replay(rule, h, PartsEvents(parts)) == Finished(h, false)
    decreases |parts|
  {
    if parts != [] {
      var p := parts[0];
      var evs := [Start(p), End(p.name)];
      assert Replay(rule, h, evs) == Finished(h, false) by {
        assert Enter(h, p) == h.(stack := h.stack + [p]);
        assert evs[1..] == [End(p.name)];
        ReplayClose(rule, h.(stack := h.stack + [p]), p.name);
        assert (h.stack + [p])[..|h.stack|] == h.stack;
      }
      assert PlainParts(parts[1..]) by {
        assert forall i :: 1 <= i < |parts| ==> parts[1..][i - 1] == parts[i];
      }
      PartsReplay(rule, h, parts[1..]);
      ReplayThen(rule, h, evs, PartsEvents(parts[1..]), h, h);
    }
  }

  /** One resource element at resource depth registers the resource under
      its identifier and changes nothing else. */
  lemma {:induction false} ResourceReplay(rule: LeaveRule, h: HandlerState, e: ResourceEntry)
    requires |h.stack| == 2 && Node("resource", e.attrs).Find("identifier").Some? && PlainParts(e.parts)
    ensures var r := ResourceOf(Node("resource", e.attrs)).value;
            Replay(rule, h, ResourceEvents(e)) ==
              Finished(h.(builder := h.builder.(resourcesMap := h.builder.resourcesMap[r.identifier := r])), false)
  {
    var node := Node("resource", e.attrs);
    var r := ResourceOf(node).value;
    var h1 := Enter(h, node);
    assert h1 == h.(builder := h.builder.(resourcesMap := h.builder.resourcesMap[r.identifier := r]),
                    stack := h.stack + [node]);
    assert Replay(rule, h, [Start(node)]) == Finished(h1, false) by {
      assert [Start(node)][1..] == [];
    }
    PartsReplay(rule, h1, e.parts);
    ReplayThen(rule, h, [Start(node)], PartsEvents(e.parts), h1, h1);
    ReplayClose(rule, h1, "resource");
    assert h1.stack[..2] == h.stack;
    ReplayThen(rule, h, [Start(node)] + PartsEvents(e.parts), [End("resource")], h1, h1.(stack := h.stack));
  }

  /** A run of identified resources registers each in document order; a later
      resource with an identifier already seen replaces the earlier one. */
  lemma {:induction false} ResourcesReplay(rule: LeaveRule, h: HandlerState, es: seq<ResourceEntry>)
    requires |h.stack| == 2 && WellFormed(es)
    ensures Replay(rule, h, ResourcesEvents(es)) ==
              Finished(h.(builder := h.builder.(resourcesMap := Registered(h.builder.resourcesMap, es))), false)
    decreases |es|
  {
    if es != [] {
      var r := ResourceOf(Node("resource", es[0].attrs)).value;
      var h1 := h.(builder := h.builder.(resourcesMap := h.builder.resourcesMap[r.identifier := r]));
      ResourceReplay(rule, h, es[0]);
      assert WellFormed(es[1..]) by {
        assert forall i :: 1 <= i < |es| ==> es[1..][i - 1] == es[i];
      }
      ResourcesReplay(rule, h1, es[1..]);
      ReplayThen(rule, h, ResourceEvents(es[0]), ResourcesEvents(es[1..]), h1,
                 h.(builder := h.builder.(resourcesMap := Registered(h.builder.resourcesMap, es))));
    }
  }

  lemma {:induction false} WellFormedTail(es: seq<ResourceEntry>)
    requires WellFormed(es) && es != []
    ensures WellFormed(es[1..])
  {
    assert forall j :: 1 <= j < |es| ==> es[1..][j - 1] == es[j];
  }

  /** A key registered earlier stays registered. */
  lemma {:induction false} RegisteredKeeps(m: map<string, Resource>, es: seq<ResourceEntry>, k: string)
    requires k in m
    ensures k in Registered(m, es)
    decreases |es|
  {
    if es != [] {
      match ResourceOf(Node("resource", es[0].attrs))
      case Some(r) => RegisteredKeeps(m[r.identifier := r], es[1..], k);
      case None => RegisteredKeeps(m, es[1..], k);
    }
  }

  /** Registering a well-formed first resource stores it under its identifier. */
  lemma {:induction false} RegisteredCons(m: map<string, Resource>, es: seq<ResourceEntry>)
    requires WellFormed(es) && es != []
    ensures WellFormed(es[1..])
    ensures var r := ResourceOf(Node("resource", es[0].attrs)).value;
            r.identifier == Id(es[0]) && Registered(m, es) == Registered(m[r.identifier := r], es[1..])
  {
    WellFormedTail(es);
  }

  /** Every declared identifier ends up registered. */
  lemma {:induction false} RegisteredHas(m: map<string, Resource>, es: seq<ResourceEntry>)
    requires WellFormed(es)
    ensures forall i :: 0 <= i < |es| ==> Id(es[i]) in Registered(m, es)
    decreases |es|
  {
    if es != [] {
      RegisteredCons(m, es);
      var r := ResourceOf(Node("resource", es[0].attrs)).value;
      RegisteredKeeps(m[r.identifier := r], es[1..], r.identifier);
      RegisteredHas(m[r.identifier := r], es[1..]);
      assert forall i :: 1 <= i < |es| ==> es[i] == es[1..][i - 1];
    }
  }

  /** Nothing but the earlier keys and the declared identifiers is registered. */
  lemma {:induction false} RegisteredOnly(m: map<string, Resource>, es: seq<ResourceEntry>, k: string)
    requires WellFormed(es) && k in Registered(m, es)
    ensures k in m || exists i :: 0 <= i < |es| && Id(es[i]) == k
    decreases |es|
  {
    if es != [] {
      var r := ResourceOf(Node("resource", es[0].attrs)).value;
      WellFormedTail(es);
      RegisteredOnly(m[r.identifier := r], es[1..], k);
      if k !in m && k != r.identifier {
        var i :| 0 <= i < |es[1..]| && Id(es[1..][i]) == k;
        assert Id(es[i + 1]) == k;
      }
    }
  }

  /** Resources with pairwise distinct, new identifiers each add one entry. */
  lemma {:induction false} RegisteredSize(m: map<string, Resource>, es: seq<ResourceEntry>)
    requires WellFormed(es) && DistinctIds(es)
    requires forall i :: 0 <= i < |es| ==> Id(es[i]) !in m
    ensures |Registered(m, es)| == |m| + |es|
    decreases |es|
  {
    if es != [] {
      var r := ResourceOf(Node("resource", es[0].attrs)).value;
      assert WellFormed(es[1..]) && DistinctIds(es[1..]) by {
        assert forall i :: 1 <= i < |es| ==> es[1..][i - 1] == es[i];
      }
      assert forall i :: 0 <= i < |es[1..]| ==> Id(es[1..][i]) !in m[r.identifier := r] by {
        assert forall i :: 0 <= i < |es[1..]| ==> es[1..][i] == es[i + 1];
      }
      RegisteredSize(m[r.identifier := r], es[1..]);
    }
  }

  /** Resources whose identifiers are, in order, a list of distinct names
      register exactly those names, one entry each. */
  lemma {:induction false} RegisteredExactly(es: seq<ResourceEntry>, ids: seq<string>)
    requires WellFormed(es) && |es| == |ids|
    requires forall i :: 0 <= i < |es| ==> Id(es[i]) == ids[i]
    requires forall i, j :: 0 <= i < j < |ids| ==> ids[i] != ids[j]
    ensures |Registered(map[], es)| == |ids|
    ensures forall k :: k in Registered(map[], es) <==> k in ids
  {
    RegisteredSize(map[], es);
    RegisteredHas(map[], es);
    forall k | k in Registered(map[], es)
      ensures k in ids
    {
      RegisteredOnly(map[], es, k);
    }
  }

  const LAR: string := TypeClassifier.LEARNING_APPLICATION_RESOURCE

  /** The identifiers the test manifest's resources declare, in order. */
  const IDS: seq<string> := [
    "i5e0d8279664539be677db96c71643966_syllabus",
    "i5e0d8279664539be677db96c71643966",
    "ia88f49c25e1b684e311b2ff3da9c3780",
    "iadc3bb46492a88f5dec93121538151df",
    "i86ed42b01897fba5a7126d18558fd7a8",
    "id05f7ff3bfefb887478eed302e9e7577",
    "id7e712a7065dd41d746846c5898bd9d3",
    "i5ae2ebabbdca02262357c21db54aec9b",
    "iac561ca66d48400a9f8fd25c86454d4b"
  ]

  /** A resource whose first attribute is its identifier. Its file and
      dependency children are left out: PartsReplay shows that such empty
      elements change nothing. */
  function Declared(id: string, rest: seq<Attr>): ResourceEntry {
    ResourceEntry([Attr("identifier", id)] + rest, [])
  }

  lemma DeclaredId(id: string, rest: seq<Attr>)
    ensures Node("resource", Declared(id, rest).attrs).Find("identifier") == Some(id)
  {
    assert Declared(id, rest).attrs[0] == Attr("identifier", id);
  }

  /** The attributes after the identifier, resource by resource. */
  const REST: seq<seq<Attr>> := [
    [Attr("type", LAR), Attr("href", "course_settings/syllabus.html"), Attr("intendeduse", "syllabus")],
    [Attr("type", LAR), Attr("href", "course_settings/canvas_export.txt")],
    [Attr("type", "webcontent"), Attr("href", "wiki_content/front-page.html")],
    [Attr("type", "webcontent"), Attr("href", "wiki_content/page-hidden-from-students.html")],
    [Attr("type", LAR), Attr("href", "i86ed42b01897fba5a7126d18558fd7a8/assignment-1.html")],
    [Attr("type", "imsdt_xmlv1p1")],
    [Attr("type", LAR), Attr("href", "id7e712a7065dd41d746846c5898bd9d3.xml")],
    [Attr("type", "imsqti_xmlv1p2/imscc_xmlv1p1/assessment")],
    [Attr("type", LAR), Attr("href", "i5ae2ebabbdca02262357c21db54aec9b/assessment_meta.xml")]
  ]

  /** The nine resources of the test manifest, in document order. */
  const RESOURCES: seq<ResourceEntry> := [
    Declared(IDS[0], REST[0]), Declared(IDS[1], REST[1]), Declared(IDS[2], REST[2]),
    Declared(IDS[3], REST[3]), Declared(IDS[4], REST[4]), Declared(IDS[5], REST[5]),
    Declared(IDS[6], REST[6]), Declared(IDS[7], REST[7]), Declared(IDS[8], REST[8])
  ]

  lemma {:induction false} ResourcesDeclared()
    ensures |RESOURCES| == |IDS| == |REST|
    ensures forall i :: 0 <= i < |RESOURCES| ==> RESOURCES[i] == Declared(IDS[i], REST[i])
  {
  }

  /** The fixture resources declare the identifiers in IDS, in order. */
  lemma {:induction false} FixtureIds()
    ensures WellFormed(RESOURCES) && |RESOURCES| == |IDS|
    ensures forall i :: 0 <= i < |RESOURCES| ==> Id(RESOURCES[i]) == IDS[i]
  {
    ResourcesDeclared();
    forall i | 0 <= i < |RESOURCES|
      ensures Node("resource", RESOURCES[i].attrs).Find("identifier") == Some(IDS[i])
    {
      DeclaredId(IDS[i], REST[i]);
    }
  }

  /** No identifier is declared twice. */
  lemma {:induction false} IdsDistinct()
    ensures forall i, j :: 0 <= i < j < |IDS| ==> IDS[i] != IDS[j]
  {
  }

  /** The test manifest's resources block registers nine resources, exactly
      one under each declared identifier. */
  lemma {:induction false} FixtureResources(rule: LeaveRule, h: HandlerState)
    requires |h.stack| == 1 && h.builder.resourcesMap == map[]
    ensures var o := Replay(rule, h, Wrap("resources", ResourcesEvents(RESOURCES)));
            && o.Finished? && !o.faulted
            && o.state == h.(builder := h.builder.(resourcesMap := o.state.builder.resourcesMap))
            && |o.state.builder.resourcesMap| == 9
            && forall k :: k in o.state.builder.resourcesMap <==> k in IDS
  {
    var hr := h.(stack := h.stack + [Node("resources", [])]);
    var m := Registered(map[], RESOURCES);
    FixtureIds();
    ResourcesReplay(rule, hr, RESOURCES);
    WrapReplay(rule, h, "resources", ResourcesEvents(RESOURCES), hr.(builder := hr.builder.(resourcesMap := m)));
    IdsDistinct();
    RegisteredExactly(RESOURCES, IDS);
  }

  // -----------------------------------------------------------------------
  // The whole test manifest
  // -----------------------------------------------------------------------

  const MANIFEST_ROOT: Node := Node("manifest", [Attr("identifier", "i3ebf4e9fe673c98a2e10715ec293b6bf")])

  /** `<manifest ...><metadata>...</metadata>org<resources>...</resources></manifest>`,
      for the events `org` of some organization tree. */
  function ManifestWith(org: seq<Event>): seq<Event> {
    [Start(MANIFEST_ROOT)]
    + (MetadataEvents() + org + Wrap("resources", ResourcesEvents(RESOURCES)))
    + [End("manifest")]
  }

  /** The test manifest. */
  function ManifestEvents(): seq<Event> {
    ManifestWith(OrganizationsEvents())
  }

  /** The state after the metadata record, before the organization tree. */
  const AFTER_METADATA: HandlerState :=
    HandlerState(ManifestBuilder(General("A Course", "test this course", "Private"), [], map[]), START, [MANIFEST_ROOT])

  /** The test manifest's metadata and resources around any organization
      tree that replays cleanly back to the root: the result holds the general
      record of the metadata, the modules of the tree, and the nine resources,
      and the stack ends empty. */
  lemma {:induction false} ManifestReplay(rule: LeaveRule, org: seq<Event>, h2: HandlerState)
    requires Replay(rule, AFTER_METADATA, org) == Finished(h2, false)
    requires h2.stack == [MANIFEST_ROOT] && h2.builder.resourcesMap == map[]
    ensures var o := Replay(rule, INITIAL, ManifestWith(org));
            && o.Finished? && !o.faulted && o.state.stack == [] && o.state.tracker == h2.tracker
            && o.state.builder.general == h2.builder.general && o.state.builder.modules == h2.builder.modules
            && |o.state.builder.resourcesMap| == 9
            && forall k :: k in o.state.builder.resourcesMap <==> k in IDS
  {
    var h0 := INITIAL.(stack := [MANIFEST_ROOT]);
    assert Replay(rule, INITIAL, [Start(MANIFEST_ROOT)]) == Finished(h0, false) by {
      assert [Start(MANIFEST_ROOT)][1..] == [];
    }
    MetadataGeneral(rule, h0);
    assert h0.(builder := h0.builder.(general := General("A Course", "test this course", "Private"))) == AFTER_METADATA;
    FixtureResources(rule, h2);
    var h3 := Replay(rule, h2, Wrap("resources", ResourcesEvents(RESOURCES))).state;
    ReplayThen(rule, h0, MetadataEvents(), org, AFTER_METADATA, h2);
    ReplayThen(rule, h0, MetadataEvents() + org, Wrap("resources", ResourcesEvents(RESOURCES)), h2, h3);
    ReplayThen(rule, INITIAL, [Start(MANIFEST_ROOT)],
               MetadataEvents() + org + Wrap("resources", ResourcesEvents(RESOURCES)), h0, h3);
    ReplayClose(rule, h3, "manifest");
    ReplayThen(rule, INITIAL, [Start(MANIFEST_ROOT)]
                              + (MetadataEvents() + org + Wrap("resources", ResourcesEvents(RESOURCES))),
               [End("manifest")], h3, Close(rule, h3, "manifest"));
  }

  /** As written, the test manifest yields the three general fields, two
      modules with their titles, and nine resources, which is all the shipped
      tests check; "Module 1" nonetheless holds only "Assignment 1". */
  lemma {:induction false} ManifestPopFirst()
    ensures var o := Replay(PopThenStep, INITIAL, ManifestEvents());
            && o.Finished? && !o.faulted && o.state.stack == []
            && o.state.builder.general == General("A Course", "test this course", "Private")
            && o.state.builder.modules == [
                 ModuleBuilder("Mod Testing", [ModuleItemBuilder("mod debug", Some("ib81691c293cfcd8474622cfd8c0047f5"))]),
                 ModuleBuilder("Module 1", [ModuleItemBuilder("Assignment 1", Some("i86ed42b01897fba5a7126d18558fd7a8"))])]
            && |o.state.builder.resourcesMap| == 9
  {
    OrganizationsPopFirst(AFTER_METADATA);
    ManifestReplay(PopThenStep, OrganizationsEvents(), Replay(PopThenStep, AFTER_METADATA, OrganizationsEvents()).state);
  }

  /** With the corrected leave, the same manifest yields "Module 1" with both
      of its items. */
  lemma {:induction false} ManifestStepFirst()
    ensures var o := Replay(StepThenPop, INITIAL, ManifestEvents());
            && o.Finished? && !o.faulted && o.state.stack == []
            && o.state.builder.general == General("A Course", "test this course", "Private")
            && o.state.builder.modules == [
                 ModuleBuilder("Mod Testing", [ModuleItemBuilder("mod debug", Some("ib81691c293cfcd8474622cfd8c0047f5"))]),
                 ModuleBuilder("Module 1", [ModuleItemBuilder("Assignment 1", Some("i86ed42b01897fba5a7126d18558fd7a8")),
                                            ModuleItemBuilder("Quiz 1", Some("i5ae2ebabbdca02262357c21db54aec9b"))])]
            && |o.state.builder.resourcesMap| == 9
  {
    OrganizationsStepFirst(AFTER_METADATA);
    ManifestReplay(StepThenPop, OrganizationsEvents(), Replay(StepThenPop, AFTER_METADATA, OrganizationsEvents()).state);
  }
}
