/** Shared vocabulary of the manifest walkers: XML nodes and their attributes,
    the event stream an XML reader delivers, and attribute lookup
    (src/summarize/utils.rs). */
module Utils {

  datatype Option<T> = None | Some(value: T)

  /** Absolute element depths (1 = the document root) at which the manifest
      schema places module items and the items inside them. */
  const MODULE_DEPTH: nat := 5
  const MODULE_ITEM_DEPTH: nat := 6

  /** The depth of resource elements (manifest > resources > resource). */
  const RESOURCE_DEPTH: nat := 3

  /** An attribute, reduced to the local part of its name and its value. */
  datatype Attr = Attr(localName: string, value: string)

  /** An open element: its local name and its attributes in document order. */
  datatype Node = Node(name: string, attributes: seq<Attr>)
  {
    predicate HasName(n: string) {
      name == n
    }

    /** The value of the node's first attribute called `key`. */
    function Find(key: string): Option<string> {
      FindAttr(key, attributes)
    }
  }

  /** One event of the flat stream an XML reader produces. `Other` stands for
      the events every walker ignores (document start, whitespace, comments,
      processing instructions); `Err` is a malformed-markup fault. */
  datatype Event =
    | Start(node: Node)
    | End(name: string)
    | Chars(text: string)
    | EndDocument
    | Other
    | Err

  /** +1 for an element opening, -1 for an element closing, 0 otherwise. */
  function Delta(e: Event): int {
    if e.Start? then 1 else if e.End? then -1 else 0
  }

  /** Openings minus closings over a stream. */
  function Net(evs: seq<Event>): int {
    if evs == [] then 0 else Delta(evs[0]) + Net(evs[1..])
  }

  /** With `d` elements open, no prefix of the stream closes more elements
      than are open: what a well-formed document's reader guarantees. */
  predicate Fits(d: int, evs: seq<Event>)
    decreases |evs|
  {
    d >= 0 && (evs == [] || Fits(d + Delta(evs[0]), evs[1..]))
  }

  /** A stream that closes exactly what it opens, never more at any point. */
  predicate Balanced(evs: seq<Event>) {
    Fits(0, evs) && Net(evs) == 0
  }

  /** True when attribute `i` is the first one whose local name is `key`. */
  predicate IsFirstNamed(key: string, attrs: seq<Attr>, i: int) {
    && 0 <= i < |attrs|
    && attrs[i].localName == key
    && forall j :: 0 <= j < i ==> attrs[j].localName != key
  }

  /** `find_attr`: early-return search for the first attribute named `key`. */
  function FindAttr(key: string, attrs: seq<Attr>): (r: Option<string>)
    ensures r.None? <==> forall i :: 0 <= i < |attrs| ==> attrs[i].localName != key
    ensures r.Some? ==> exists i :: IsFirstNamed(key, attrs, i) && attrs[i].value == r.value
  {
    if attrs == [] then None
    else if attrs[0].localName == key then Some(attrs[0].value)
    else
      var rest := FindAttr(key, attrs[1..]);
      if rest.Some? then
        ghost var i :| IsFirstNamed(key, attrs[1..], i) && attrs[1..][i].value == rest.value;
        assert IsFirstNamed(key, attrs, i + 1);
        rest
      else
        assert forall i :: 1 <= i < |attrs| ==> attrs[1..][i - 1] == attrs[i];
        rest
  }

  /** The value FindAttr reports is the one of the first attribute with that name. */
  lemma {:induction false} FindAttrFirst(key: string, attrs: seq<Attr>, i: int)
    requires IsFirstNamed(key, attrs, i)
    ensures FindAttr(key, attrs) == Some(attrs[i].value)
  {
    if i > 0 {
      FindAttrFirst(key, attrs[1..], i - 1);
    }
  }
}
