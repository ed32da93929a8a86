/** The parsed article as xml.etree.ElementTree presents it: elements with text, tail and children. */
module Xml {
  import opened Wrappers

  /** An element: `text` is the character data before its first child, `tail` the character data
      after its end tag and before its next sibling. */
  datatype Node = Node(
    tag: string,
    attrs: map<string, string>,
    text: Option<string>,
    tail: Option<string>,
    children: seq<Node>)

  /** Python's truthiness of `elem.text` / `elem.tail`: present and not empty. */
  predicate NonEmpty(s: Option<string>) {
    s.Some? && s.value != ""
  }

  /** Element.iter(): the element itself, then every descendant, in document order. */
  function Iter(n: Node): (r: seq<Node>)
    ensures |r| >= 1 && r[0] == n
    decreases n
  {
    [n] + IterAll(n.children)
  }

  /** The concatenated iterations of a list of siblings. */
  function IterAll(ns: seq<Node>): (r: seq<Node>)
    ensures |r| >= |ns|
    decreases ns
  {
    if ns == [] then [] else Iter(ns[0]) + IterAll(ns[1..])
  }

  /** A step of an ElementPath expression: a tag, optionally with `[@key='value']`. */
  datatype Selector = Tag(name: string) | TagWithAttr(name: string, key: string, value: string)

  predicate Selects(sel: Selector, n: Node) {
    match sel
    case Tag(name) => n.tag == name
    case TagWithAttr(name, key, value) => n.tag == name && key in n.attrs && n.attrs[key] == value
  }

  /** The nodes of `ns` that `sel` selects, in their order in `ns`. */
  function Filter(ns: seq<Node>, sel: Selector): (r: seq<Node>)
    ensures |r| <= |ns|
  {
    if ns == [] then []
    else (if Selects(sel, ns[0]) then [ns[0]] else []) + Filter(ns[1..], sel)
  }

  /** Filtering distributes over concatenation, so it keeps document order. */
  lemma {:induction false} FilterAppend(a: seq<Node>, b: seq<Node>, sel: Selector)
    ensures Filter(a + b, sel) == Filter(a, sel) + Filter(b, sel)
  {
    if a != [] {
      assert (a + b)[0] == a[0];
      assert (a + b)[1..] == a[1..] + b;
      FilterAppend(a[1..], b, sel);
    } else {
      assert a + b == b;
    }
  }

  /** The position of the first node of `ns[from..]` that `sel` selects. */
  function FirstIndex(ns: seq<Node>, sel: Selector, from: nat): (r: Option<nat>)
    requires from <= |ns|
    ensures r.Some? ==> from <= r.value < |ns| && Selects(sel, ns[r.value])
    ensures r.Some? ==> forall j :: from <= j < r.value ==> !Selects(sel, ns[j])
    ensures r.None? ==> forall j :: from <= j < |ns| ==> !Selects(sel, ns[j])
    decreases |ns| - from
  {
    if from == |ns| then None
    else if Selects(sel, ns[from]) then Some(from)
    else FirstIndex(ns, sel, from + 1)
  }

  /** The first selected node of a sequence, as ElementPath's find() returns it. */
  function First(ns: seq<Node>, sel: Selector): (r: Option<Node>)
  {
    match FirstIndex(ns, sel, 0)
    case Some(i) => Some(ns[i])
    case None => None
  }

  /** Element.iter(tag) */
  function IterTag(n: Node, tag: string): seq<Node> {
    Filter(Iter(n), Tag(tag))
  }

  /** Element.find(tag): the first direct child with that tag. */
  function FindChild(n: Node, tag: string): Option<Node> {
    First(n.children, Tag(tag))
  }

  /** Element.find(".//step"): the first proper descendant, in document order, that the step selects. */
  function Find(n: Node, sel: Selector): Option<Node> {
    First(IterAll(n.children), sel)
  }

  /** Element.findall(".//step") */
  function FindAll(n: Node, sel: Selector): seq<Node> {
    Filter(IterAll(n.children), sel)
  }

  /** Element.find(".//outer/inner"): among the proper descendants tagged `outer`, in document
      order, the first that has a child tagged `inner`; that child. */
  function FindNested(n: Node, outer: string, inner: string): (r: Option<Node>)
    ensures r.Some? ==> r.value.tag == inner
    ensures var os := FindAll(n, Tag(outer));
            r.Some? ==> exists i :: 0 <= i < |os| && FindChild(os[i], inner) == r
                                    && forall j :: 0 <= j < i ==> FindChild(os[j], inner).None?
    ensures r.None? <==> forall m :: m in FindAll(n, Tag(outer)) ==> FindChild(m, inner).None?
  {
    FirstChildOfAny(FindAll(n, Tag(outer)), inner)
  }

  /** The first child tagged `inner` of the first node of `ns` that has one. */
  function FirstChildOfAny(ns: seq<Node>, inner: string): (r: Option<Node>)
    ensures r.Some? ==> r.value.tag == inner
    ensures r.Some? ==> exists i :: 0 <= i < |ns| && FindChild(ns[i], inner) == r
                                    && forall j :: 0 <= j < i ==> FindChild(ns[j], inner).None?
    ensures r.None? <==> forall m :: m in ns ==> FindChild(m, inner).None?
  {
    if ns == [] then None
    else match FindChild(ns[0], inner)
      case Some(c) => Some(c)
      case None => FirstChildOfAny(ns[1..], inner)
  }

  /** Element.itertext(): the non-empty text of the element and its descendants, each child's
      tail right after that child's own text, in document order. */
  function Itertext(n: Node): (r: seq<string>)
    ensures forall p :: p in r ==> p != ""
    decreases n
  {
    (if NonEmpty(n.text) then [n.text.value] else []) + ItertextChildren(n.children)
  }

  function ItertextChildren(cs: seq<Node>): (r: seq<string>)
    ensures forall p :: p in r ==> p != ""
    decreases cs
  {
    if cs == [] then []
    else Itertext(cs[0]) + (if NonEmpty(cs[0].tail) then [cs[0].tail.value] else []) + ItertextChildren(cs[1..])
  }
}
