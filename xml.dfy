/**
 * The element trees the scenario generator builds with lxml: a tag, the
 * attributes in the order they were given, and the child elements in document
 * order.  Text content is never used.
 */
module Xml {
  import opened Common

  datatype Element = Element(tag: string, attrs: seq<(string, string)>, children: seq<Element>)

  /** An element without children. */
  function Leaf(tag: string, attrs: seq<(string, string)>): Element
  {
    Element(tag, attrs, [])
  }

  /** The value of the first attribute with the given name. */
  function Lookup(attrs: seq<(string, string)>, name: string): (v: Option<string>)
    ensures v.None? <==> forall i :: 0 <= i < |attrs| ==> attrs[i].0 != name
    ensures v.Some? ==> exists i :: 0 <= i < |attrs| && attrs[i] == (name, v.value)
  {
    if attrs == [] then None
    else if attrs[0].0 == name then Some(attrs[0].1)
    else
      var v := Lookup(attrs[1..], name);
      assert forall i :: 1 <= i < |attrs| ==> attrs[1..][i - 1] == attrs[i];
      v
  }

  function Attr(e: Element, name: string): Option<string>
  {
    Lookup(e.attrs, name)
  }

  /** The first element of es with the given tag. */
  function FirstTagged(es: seq<Element>, tag: string): (r: Option<Element>)
    ensures r.None? <==> forall i :: 0 <= i < |es| ==> es[i].tag != tag
    ensures r.Some? ==> exists i :: 0 <= i < |es| && es[i] == r.value && r.value.tag == tag &&
                                    forall j :: 0 <= j < i ==> es[j].tag != tag
  {
    if es == [] then None
    else if es[0].tag == tag then Some(es[0])
    else
      var r := FirstTagged(es[1..], tag);
      assert forall i :: 1 <= i < |es| ==> es[1..][i - 1] == es[i];
      r
  }

  /** The first child of e with the given tag. */
  function Child(e: Element, tag: string): Option<Element>
  {
    FirstTagged(e.children, tag)
  }

  /** The element reached from e by following, tag by tag, the first child with each tag. */
  function Find(e: Element, path: seq<string>): Option<Element>
    decreases |path|
  {
    if path == [] then Some(e)
    else match Child(e, path[0])
      case None => None
      case Some(c) => Find(c, path[1..])
  }

  /** The children of the element at the end of a path; none when the path leads nowhere. */
  function ChildrenAt(e: Element, path: seq<string>): (cs: seq<Element>)
    ensures Find(e, path).Some? ==> cs == Find(e, path).value.children
    ensures Find(e, path).None? ==> cs == []
  {
    match Find(e, path)
    case None => []
    case Some(c) => c.children
  }

  /** All elements of es with the given tag, in order. */
  function Tagged(es: seq<Element>, tag: string): (r: seq<Element>)
    ensures |r| <= |es|
    ensures forall i :: 0 <= i < |r| ==> r[i].tag == tag && r[i] in es
  {
    if es == [] then []
    else if es[|es| - 1].tag == tag then Tagged(es[..|es| - 1], tag) + [es[|es| - 1]]
    else Tagged(es[..|es| - 1], tag)
  }

  /** Filtering a list whose elements all carry the tag keeps the whole list. */
  lemma {:induction false} TaggedAll(es: seq<Element>, tag: string)
    requires forall i :: 0 <= i < |es| ==> es[i].tag == tag
    ensures Tagged(es, tag) == es
  {
    if es != [] {
      TaggedAll(es[..|es| - 1], tag);
    }
  }

  /** The attribute at position i is the one found when no attribute before it has that name. */
  lemma {:induction false} LookupAt(attrs: seq<(string, string)>, i: nat)
    requires i < |attrs| && forall j :: 0 <= j < i ==> attrs[j].0 != attrs[i].0
    ensures Lookup(attrs, attrs[i].0) == Some(attrs[i].1)
  {
    if i > 0 {
      assert attrs[1..][i - 1] == attrs[i];
      LookupAt(attrs[1..], i - 1);
    }
  }

  /** The element at position i is the one found when no element before it has its tag. */
  lemma {:induction false} FirstTaggedAt(es: seq<Element>, i: nat)
    requires i < |es| && forall j :: 0 <= j < i ==> es[j].tag != es[i].tag
    ensures FirstTagged(es, es[i].tag) == Some(es[i])
  {
    if i > 0 {
      assert es[1..][i - 1] == es[i];
      FirstTaggedAt(es[1..], i - 1);
    }
  }

  /** The child at position i is the one found when no child before it has its tag. */
  lemma ChildAt(e: Element, i: nat)
    requires i < |e.children| && forall j :: 0 <= j < i ==> e.children[j].tag != e.children[i].tag
    ensures Child(e, e.children[i].tag) == Some(e.children[i])
  {
    FirstTaggedAt(e.children, i);
  }
}
