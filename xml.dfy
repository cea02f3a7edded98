/** The part of an ElementTree element the cleaning code looks at: its tag
    name, its attribute dictionary and its child elements in document
    order. */
module Xml {
  datatype Element = Element(tag: string, attrib: map<string, string>, children: seq<Element>)

  /** `element.iter(name)`: the element itself and all its descendants, in
      document order, that carry the tag `name`. */
  function Iter(e: Element, name: string): (found: seq<Element>)
    ensures forall i :: 0 <= i < |found| ==> found[i].tag == name
    decreases e, 1
  {
    (if e.tag == name then [e] else []) + IterAll(e.children, name)
  }

  /** `Iter` over a sequence of siblings, one after the other. */
  function IterAll(es: seq<Element>, name: string): (found: seq<Element>)
    ensures forall i :: 0 <= i < |found| ==> found[i].tag == name
    decreases es, 0
  {
    if es == [] then []
    else Iter(es[0], name) + IterAll(es[1..], name)
  }

  /** For an element whose children are all leaves, `iter` finds exactly
      the children carrying the tag, in their order. */
  lemma {:induction false} IterOfFlatChildren(es: seq<Element>, name: string)
    requires forall i :: 0 <= i < |es| ==> es[i].children == []
    ensures IterAll(es, name) == Matching(es, name)
    decreases es
  {
    if es != [] {
      assert Iter(es[0], name) == (if es[0].tag == name then [es[0]] else []);
      IterOfFlatChildren(es[1..], name);
    }
  }

  /** The elements of `es` carrying the tag `name`, in order. */
  function Matching(es: seq<Element>, name: string): (m: seq<Element>)
    ensures |m| <= |es|
    ensures forall x :: x in m <==> x in es && x.tag == name
  {
    if es == [] then []
    else (if es[0].tag == name then [es[0]] else []) + Matching(es[1..], name)
  }
}
