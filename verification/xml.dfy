/** An XML element as `xml.etree.ElementTree` presents it after parsing:
    a tag, the attribute dictionary, the optional text before the first
    child, and the children in document order. */
module Xml {
  import opened Wrappers

  datatype Element = Element(
    tag: string,
    attrib: map<string, string>,
    text: Option<string>,
    children: seq<Element>)

  /** `e.iter(tag)`: the element and all its descendants in document order
      (each element before its children), keeping those with the tag. */
  function Iter(e: Element, tag: string): (r: seq<Element>)
    ensures forall x :: x in r ==> x.tag == tag
    ensures e.tag == tag ==> |r| > 0 && r[0] == e
    decreases e, 1
  {
    (if e.tag == tag then [e] else []) + IterAll(e.children, tag)
  }

  /** `Iter` over a sequence of siblings, concatenated in order. */
  function IterAll(es: seq<Element>, tag: string): (r: seq<Element>)
    ensures forall x :: x in r ==> x.tag == tag
    decreases es, 0
  {
    if es == [] then [] else Iter(es[0], tag) + IterAll(es[1..], tag)
  }

  /** `e.find(tag)` with a plain tag name: the first direct child with that
      tag, or None. */
  function Find(e: Element, tag: string): (r: Option<Element>)
    ensures r.Some? ==> r.value in e.children && r.value.tag == tag
    ensures r.None? <==> forall c :: c in e.children ==> c.tag != tag
  {
    FindIn(e.children, tag)
  }

  function FindIn(es: seq<Element>, tag: string): (r: Option<Element>)
    ensures r.Some? ==> r.value in es && r.value.tag == tag
    ensures r.None? <==> forall c :: c in es ==> c.tag != tag
    ensures r.Some? ==> exists i :: 0 <= i < |es| && es[i] == r.value && forall j :: 0 <= j < i ==> es[j].tag != tag
  {
    if es == [] then None
    else if es[0].tag == tag then Some(es[0])
    else
      var r := FindIn(es[1..], tag);
      assert forall c :: c in es[1..] ==> c in es;
      assert r.Some? ==> exists i :: 1 <= i < |es| && es[i] == r.value && forall j :: 0 <= j < i ==> es[j].tag != tag by {
        if r.Some? {
          var i :| 0 <= i < |es[1..]| && es[1..][i] == r.value && forall j :: 0 <= j < i ==> es[1..][j].tag != tag;
          assert es[i + 1] == r.value;
        }
      }
      r
  }
}
