/** The feed document as an abstract element tree (tag, text, children), with
    the ElementTree operations the source uses: find, findall and SubElement.
    Serialisation to bytes is not modelled. */
module Xml {
  import opened Common

  datatype Element = Element(tag: string, text: string, children: seq<Element>)

  /** A childless element carrying text. */
  function Leaf(tag: string, text: string): (e: Element)
    ensures e.tag == tag && e.text == text && e.children == []
  {
    Element(tag, text, [])
  }

  /** ET.SubElement(parent, ...): the child is appended after the existing children. */
  function AppendChild(parent: Element, child: Element): (r: Element)
    ensures r.tag == parent.tag && r.text == parent.text
    ensures r.children == parent.children + [child]
  {
    parent.(children := parent.children + [child])
  }

  /** Index of the first child of e whose tag is `tag`. */
  function FindIndex(children: seq<Element>, tag: string): (r: Option<nat>)
    ensures r.Some? ==> r.value < |children| && children[r.value].tag == tag
    ensures r.Some? ==> forall j :: 0 <= j < r.value ==> children[j].tag != tag
    ensures r.None? <==> forall j :: 0 <= j < |children| ==> children[j].tag != tag
  {
    if children == [] then None
    else if children[0].tag == tag then Some(0)
    else
      match FindIndex(children[1..], tag)
      case None => None
      case Some(k) => Some(k + 1)
  }

  /** e.find(tag) is not None. */
  predicate HasChild(e: Element, tag: string) {
    FindIndex(e.children, tag).Some?
  }

  /** e.findall(tag): the direct children with that tag, in document order. */
  function FindAll(children: seq<Element>, tag: string): (r: seq<Element>)
    ensures |r| <= |children|
  {
    if children == [] then []
    else
      var rest := FindAll(children[..|children| - 1], tag);
      var last := children[|children| - 1];
      if last.tag == tag then rest + [last] else rest
  }

  /** findall returns exactly the children carrying the tag. */
  lemma {:induction false} FindAllMembers(children: seq<Element>, tag: string)
    ensures forall x :: x in FindAll(children, tag) ==> x in children && x.tag == tag
    ensures forall j :: 0 <= j < |children| && children[j].tag == tag ==> children[j] in FindAll(children, tag)
  {
    if children != [] {
      var init := children[..|children| - 1];
      var last := children[|children| - 1];
      FindAllMembers(init, tag);
      assert children == init + [last];
      assert FindAll(children, tag) == FindAll(init, tag) + (if last.tag == tag then [last] else []);
    }
  }

  lemma {:induction false} FindAllAppend(a: seq<Element>, b: seq<Element>, tag: string)
    ensures FindAll(a + b, tag) == FindAll(a, tag) + FindAll(b, tag)
  {
    if b == [] {
      assert a + b == a;
    } else {
      var b' := b[..|b| - 1];
      assert (a + b)[..|a + b| - 1] == a + b';
      FindAllAppend(a, b', tag);
    }
  }

  /** The children of a list whose tags are all `tag` are found by findall unchanged. */
  lemma {:induction false} FindAllAllTagged(s: seq<Element>, tag: string)
    requires forall j :: 0 <= j < |s| ==> s[j].tag == tag
    ensures FindAll(s, tag) == s
  {
    if s != [] {
      var init := s[..|s| - 1];
      assert forall j :: 0 <= j < |init| ==> init[j].tag == tag;
      FindAllAllTagged(init, tag);
      assert FindAll(s, tag) == FindAll(init, tag) + [s[|s| - 1]];
      assert s == init + [s[|s| - 1]];
    }
  }

  /** No element of the list carries the tag, so findall finds nothing. */
  lemma {:induction false} FindAllNoneTagged(s: seq<Element>, tag: string)
    requires forall j :: 0 <= j < |s| ==> s[j].tag != tag
    ensures FindAll(s, tag) == []
  {
    if s != [] {
      var init := s[..|s| - 1];
      assert forall j :: 0 <= j < |init| ==> init[j].tag != tag;
      FindAllNoneTagged(init, tag);
      assert FindAll(s, tag) == FindAll(init, tag);
    }
  }
}
