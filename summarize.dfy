/** The prototype walker of src/summarize.rs: a single loop over the reader's
    events that counts element depth and collects the module items, the items
    inside them (keyed by the resource they point at) and the resources. */
module Summarize {
  import opened Utils

  /** What the walk collects: module item nodes and resource nodes in
      document order, and module contents keyed by their `identifierref`. */
  datatype Summary = Summary(modules: seq<Node>, resources: seq<Node>, modulesContents: map<string, Node>)

  /** `Summary::new`: nothing collected yet. */
  const EMPTY_SUMMARY: Summary := Summary([], [], map[])

  /** The loop's state: the summary so far, the element depth, and the local
      name of the element most recently opened. */
  datatype Walker = Walker(summary: Summary, depth: int, currentTag: string)

  /** The loop starts at depth 0 with the local part of the placeholder
      name "unmatchable:start"; the tag is only ever compared where the
      loop prints, which this model leaves out. */
  const INIT: Walker := Walker(EMPTY_SUMMARY, 0, "start")

  /** `find_identifierref`: early-return search for the first attribute
      named "identifierref". */
  function FindIdentifierRef(attrs: seq<Attr>): (r: Option<string>)
    ensures r == FindAttr("identifierref", attrs)
    ensures r.None? <==> forall i :: 0 <= i < |attrs| ==> attrs[i].localName != "identifierref"
  {
    if attrs == [] then None
    else if attrs[0].localName == "identifierref" then Some(attrs[0].value)
    else
      var rest := FindIdentifierRef(attrs[1..]);
      assert forall i :: 1 <= i < |attrs| ==> attrs[1..][i - 1] == attrs[i];
      rest
  }

  /** `indent`: `size` copies of a four-space indentation unit. */
  function Indent(size: nat): (r: string)
    ensures |r| == 4 * size
    ensures forall i :: 0 <= i < |r| ==> r[i] == ' '
  {
    if size == 0 then "" else Indent(size - 1) + "    "
  }

  /** Indentation is additive: indenting by a and then by b is indenting by a + b. */
  lemma {:induction false} IndentAdd(a: nat, b: nat)
    ensures Indent(a + b) == Indent(a) + Indent(b)
  {
    if b > 0 {
      IndentAdd(a, b - 1);
      assert Indent(a + b) == Indent(a + b - 1) + "    ";
    }
  }

  /** One turn of the loop on an event that is not an error. */
  function Step(w: Walker, e: Event): (r: Walker)
    requires !e.Err?
    ensures e.Start? ==> r.depth == w.depth + 1 && r.currentTag == e.node.name
    ensures e.End? ==> r == w.(depth := w.depth - 1)
    ensures !e.Start? && !e.End? ==> r == w
    ensures e.Start? && e.node.name == "item" && r.depth == MODULE_DEPTH ==>
              r.summary == w.summary.(modules := w.summary.modules + [e.node])
    ensures e.Start? && e.node.name == "item" && r.depth == MODULE_ITEM_DEPTH ==>
              r.summary == (match FindAttr("identifierref", e.node.attributes)
                            case Some(key) => w.summary.(modulesContents := w.summary.modulesContents[key := e.node])
                            case None => w.summary)
    ensures e.Start? && e.node.name == "resource" && r.depth == RESOURCE_DEPTH ==>
              r.summary == w.summary.(resources := w.summary.resources + [e.node])
    ensures e.Start? && !((e.node.name == "item" && r.depth in {MODULE_DEPTH, MODULE_ITEM_DEPTH})
                          || (e.node.name == "resource" && r.depth == RESOURCE_DEPTH)) ==>
              r.summary == w.summary
  {
    match e
    case Start(node) =>
      var depth := w.depth + 1;
      var s := w.summary;
      var s' :=
        if node.name == "item" then
          if depth == MODULE_DEPTH then s.(modules := s.modules + [node])
          else if depth == MODULE_ITEM_DEPTH then
            match FindIdentifierRef(node.attributes)
            case Some(key) => s.(modulesContents := s.modulesContents[key := node])
            case None => s
          else s
        else if node.name == "resource" && depth == RESOURCE_DEPTH then s.(resources := s.resources + [node])
        else s;
      Walker(s', depth, node.name)
    case End(_) => w.(depth := w.depth - 1)
    case _ => w
  }

  /** The loop over a whole stream; an error event ends it early. */
  function Walk(w: Walker, evs: seq<Event>): Walker
    decreases |evs|
  {
    if evs == [] then w
    else if evs[0].Err? then w
    else Walk(Step(w, evs[0]), evs[1..])
  }

  predicate NoErr(evs: seq<Event>) {
    forall i :: 0 <= i < |evs| ==> !evs[i].Err?
  }

  /** `summarize_xml`, over the events the reader delivers. */
  method SummarizeXml(events: seq<Event>) returns (summary: Summary)
    ensures summary == Walk(INIT, events).summary
  {
    summary := EMPTY_SUMMARY;
    var depth := 0;
    var currentTag := "start";
    var i := 0;
    while i < |events|
      invariant 0 <= i <= |events|
      invariant Walk(Walker(summary, depth, currentTag), events[i..]) == Walk(INIT, events)
    {
      var e := events[i];
      assert events[i..][1..] == events[i + 1..];
      if e.Err? {
        break;
      }
      match e {
        case Start(node) =>
          depth := depth + 1;
          currentTag := node.name;
          if node.name == "item" {
            if depth == MODULE_DEPTH {
              summary := summary.(modules := summary.modules + [node]);
            } else if depth == MODULE_ITEM_DEPTH {
              var key := FindIdentifierRef(node.attributes);
              if key.Some? {
                summary := summary.(modulesContents := summary.modulesContents[key.value := node]);
              }
            }
          } else if node.name == "resource" {
            if depth == RESOURCE_DEPTH {
              summary := summary.(resources := summary.resources + [node]);
            }
          }
        case End(_) =>
          depth := depth - 1;
        case _ =>
      }
      i := i + 1;
    }
  }

  /** Walking two streams one after the other, the first free of errors. */
  lemma {:induction false} WalkAppend(w: Walker, a: seq<Event>, b: seq<Event>)
    requires NoErr(a)
    ensures Walk(w, a + b) == Walk(Walk(w, a), b)
    decreases |a|
  {
    if a != [] {
      assert (a + b)[0] == a[0] && (a + b)[1..] == a[1..] + b;
      assert !a[0].Err? && NoErr(a[1..]) by {
        assert forall i :: 0 <= i < |a| - 1 ==> a[1..][i] == a[i + 1];
      }
      WalkAppend(Step(w, a[0]), a[1..], b);
    } else {
      assert a + b == b;
    }
  }

  /** An error event ends the walk: nothing after it has any effect. */
  lemma {:induction false} WalkStopsAtErr(w: Walker, a: seq<Event>, b: seq<Event>)
    ensures Walk(w, a + [Err] + b) == Walk(w, a)
    decreases |a|
  {
    if a != [] {
      assert (a + [Err] + b)[1..] == a[1..] + [Err] + b;
      if !a[0].Err? {
        WalkStopsAtErr(Step(w, a[0]), a[1..], b);
      }
    }
  }

  /** Without errors the depth moves by openings minus closings. */
  lemma {:induction false} WalkDepthNet(w: Walker, evs: seq<Event>)
    requires NoErr(evs)
    ensures Walk(w, evs).depth == w.depth + Net(evs)
    decreases |evs|
  {
    if evs != [] {
      WalkDepthNet(Step(w, evs[0]), evs[1..]);
    }
  }

  /** On a stream that never closes more than is open, the depth at the end
      of the walk is never negative. */
  lemma {:induction false} WalkDepthNonNegative(w: Walker, evs: seq<Event>)
    requires Fits(w.depth, evs)
    ensures Walk(w, evs).depth >= 0
    decreases |evs|
  {
    if evs != [] && !evs[0].Err? {
      WalkDepthNonNegative(Step(w, evs[0]), evs[1..]);
    }
  }

  lemma {:induction false} FitsPrefix(d: int, evs: seq<Event>, k: nat)
    requires Fits(d, evs) && k <= |evs|
    ensures Fits(d, evs[..k])
    decreases k
  {
    if k > 0 {
      assert evs[..k][1..] == evs[1..][..k - 1];
      FitsPrefix(d + Delta(evs[0]), evs[1..], k - 1);
    }
  }

  /** The depth counter never underflows: after every prefix of a well-formed
      stream it is at least zero. */
  lemma NeverUnderflows(evs: seq<Event>, k: nat)
    requires Fits(0, evs) && k <= |evs|
    ensures Walk(INIT, evs[..k]).depth >= 0
  {
    FitsPrefix(0, evs, k);
    WalkDepthNonNegative(INIT, evs[..k]);
  }

  /** A balanced stream without errors brings the depth back to zero. */
  lemma BalancedEndsAtZero(evs: seq<Event>)
    requires Balanced(evs) && NoErr(evs)
    ensures Walk(INIT, evs).depth == 0
  {
    WalkDepthNet(INIT, evs);
  }

  /** Events other than element openings never change the summary. */
  lemma {:induction false} OnlyStartsCollect(w: Walker, evs: seq<Event>)
    requires forall i :: 0 <= i < |evs| ==> !evs[i].Start?
    ensures Walk(w, evs).summary == w.summary
    decreases |evs|
  {
    if evs != [] && !evs[0].Err? {
      OnlyStartsCollect(Step(w, evs[0]), evs[1..]);
    }
  }

  /** The summary only grows: module and resource lists are extended at the
      end, by item and resource nodes respectively, and every content entry
      is either an earlier one or an item stored under its own identifierref. */
  lemma {:induction false} WalkOnlyAppends(w: Walker, evs: seq<Event>)
    ensures var s := Walk(w, evs).summary;
            && w.summary.modules <= s.modules
            && (forall i :: |w.summary.modules| <= i < |s.modules| ==> s.modules[i].name == "item")
            && w.summary.resources <= s.resources
            && (forall i :: |w.summary.resources| <= i < |s.resources| ==> s.resources[i].name == "resource")
            && w.summary.modulesContents.Keys <= s.modulesContents.Keys
            && forall k :: k in s.modulesContents ==>
                 (k in w.summary.modulesContents && s.modulesContents[k] == w.summary.modulesContents[k])
                 || (s.modulesContents[k].name == "item" && s.modulesContents[k].Find("identifierref") == Some(k))
    decreases |evs|
  {
    if evs != [] && !evs[0].Err? {
      WalkOnlyAppends(Step(w, evs[0]), evs[1..]);
    }
  }

  /** `current_tag` holds the name of the most recently opened element. */
  lemma {:induction false} TagIsLastStart(w: Walker, evs: seq<Event>, i: nat)
    requires NoErr(evs) && i < |evs| && evs[i].Start?
    requires forall j :: i < j < |evs| ==> !evs[j].Start?
    ensures Walk(w, evs).currentTag == evs[i].node.name
    decreases |evs|
  {
    if i == 0 {
      TagKept(Step(w, evs[0]), evs[1..]);
    } else {
      TagIsLastStart(Step(w, evs[0]), evs[1..], i - 1);
    }
  }

  /** With no element opened, the tag stays as it was. */
  lemma {:induction false} TagKept(w: Walker, evs: seq<Event>)
    requires forall j :: 0 <= j < |evs| ==> !evs[j].Start?
    ensures Walk(w, evs).currentTag == w.currentTag
    decreases |evs|
  {
    if evs != [] && !evs[0].Err? {
      TagKept(Step(w, evs[0]), evs[1..]);
    }
  }
}
