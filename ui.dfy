/** The element builder `el(tag, attrs, children)` of the client's UI helpers. */
module Ui {
  import opened Wrappers
  import Text
  import Decimal

  /** A JavaScript value given as an attribute value. `AFn` is a function, named by its source text. */
  datatype AttrValue = AStr(s: string) | AInt(i: int) | ABool(b: bool) | AFn(source: string) | ANull | AUndefined

  /** `String(v)` (also what the `className` setter stores). */
  function StringOf(v: AttrValue): string {
    match v
    case AStr(s) => s
    case AInt(i) => Decimal.IntToString(i)
    case ABool(b) => if b then "true" else "false"
    case AFn(src) => src
    case ANull => "null"
    case AUndefined => "undefined"
  }

  /** What the `innerHTML` setter stores: null becomes "", everything else `String(v)`. */
  function HtmlOf(v: AttrValue): string {
    if v.ANull? then "" else StringOf(v)
  }

  /** The element-level state `el` sets from its attributes. */
  datatype ElementProps = ElementProps(className: string, innerHTML: string, attributes: map<string, string>,
                         listeners: seq<(string, string)>)

  const NoProps: ElementProps := ElementProps("", "", map[], [])

  /** A child as a caller passes it. */
  datatype Child = CNull | CUndefined | CText(text: string) | CNode(node: Element)

  /** `children`: an array, or a single value. */
  datatype Children = Many(items: seq<Child>) | One(item: Child)

  /** A node in an element's child list. */
  datatype DomChild = TextNode(text: string) | ElementNode(node: Element)

  class Element {
    const tag: string
    var className: string
    var innerHTML: string
    var attributes: map<string, string>
    /** Registered listeners: event type and handler, in registration order. */
    var listeners: seq<(string, string)>
    var childNodes: seq<DomChild>

    /** `document.createElement(tag)`. */
    constructor (tag: string)
      ensures this.tag == tag && Props() == NoProps && childNodes == []
    {
      this.tag := tag;
      className := "";
      innerHTML := "";
      attributes := map[];
      listeners := [];
      childNodes := [];
    }

    function Props(): ElementProps
      reads this
    {
      ElementProps(className, innerHTML, attributes, listeners)
    }

    method SetClassName(v: string)
      modifies this
      ensures Props() == old(Props()).(className := v) && childNodes == old(childNodes)
    {
      className := v;
    }

    method SetInnerHtml(v: string)
      modifies this
      ensures Props() == old(Props()).(innerHTML := v) && childNodes == old(childNodes)
    {
      innerHTML := v;
    }

    method AddEventListener(event: string, handler: string)
      modifies this
      ensures Props() == old(Props()).(listeners := old(listeners) + [(event, handler)])
      ensures childNodes == old(childNodes)
    {
      listeners := listeners + [(event, handler)];
    }

    method SetAttribute(name: string, value: string)
      modifies this
      ensures Props() == old(Props()).(attributes := old(attributes)[name := value])
      ensures childNodes == old(childNodes)
    {
      attributes := attributes[name := value];
    }

    method AppendChild(c: DomChild)
      modifies this
      ensures childNodes == old(childNodes) + [c] && Props() == old(Props())
    {
      childNodes := childNodes + [c];
    }
  }

  /** A key that registers a listener when its value is a function. */
  predicate IsListener(k: string, v: AttrValue) {
    Text.StartsWith(k, "on") && v.AFn?
  }

  /** One step of the attribute loop. */
  function ApplyAttr(p: ElementProps, k: string, v: AttrValue): ElementProps {
    if k == "class" then p.(className := StringOf(v))
    else if k == "html" then p.(innerHTML := HtmlOf(v))
    else if IsListener(k, v) then p.(listeners := p.listeners + [(k[2..], v.source)])
    else if !v.ANull? && !v.AUndefined? then p.(attributes := p.attributes[k := StringOf(v)])
    else p
  }

  /** The attribute loop over `Object.entries(attrs)`, in order. */
  function ApplyAttrs(p: ElementProps, entries: seq<(string, AttrValue)>): ElementProps
    decreases |entries|
  {
    if entries == [] then p
    else
      var last := entries[|entries| - 1];
      ApplyAttr(ApplyAttrs(p, entries[..|entries| - 1]), last.0, last.1)
  }

  /** The listeners the entries register, in order. */
  function ListenersOf(entries: seq<(string, AttrValue)>): seq<(string, string)>
    decreases |entries|
  {
    if entries == [] then []
    else
      var last := entries[|entries| - 1];
      ListenersOf(entries[..|entries| - 1]) + (if IsListener(last.0, last.1) then [(last.0[2..], last.1.source)] else [])
  }

  /** Object keys are distinct. */
  predicate DistinctKeys(entries: seq<(string, AttrValue)>) {
    forall i, j :: 0 <= i < j < |entries| ==> entries[i].0 != entries[j].0
  }

  /** What the attribute loop leaves for key `k` with value `v`. */
  predicate EntryEffect(p: ElementProps, k: string, v: AttrValue) {
    && (k == "class" ==> p.className == StringOf(v))
    && (k == "html" ==> p.innerHTML == HtmlOf(v))
    && (k != "class" && k != "html" && (IsListener(k, v) || v.ANull? || v.AUndefined?) ==> k !in p.attributes)
    && (k != "class" && k != "html" && !IsListener(k, v) && !v.ANull? && !v.AUndefined? ==>
          k in p.attributes && p.attributes[k] == StringOf(v))
  }

  /** The attribute rules of `el`: `class` and `html` never become attributes; function
      values under `on*` keys become listeners, in order, with the event name after `on`;
      null or undefined values are skipped; every other entry is stored as `String(v)`;
      and no attribute appears that no entry named. */
  lemma {:induction false} AttrsEffect(entries: seq<(string, AttrValue)>)
    requires DistinctKeys(entries)
    ensures var p := ApplyAttrs(NoProps, entries);
      "class" !in p.attributes && "html" !in p.attributes
      && p.listeners == ListenersOf(entries)
      && (forall k :: k in p.attributes ==> exists i :: 0 <= i < |entries| && entries[i].0 == k)
      && (forall i :: 0 <= i < |entries| ==> EntryEffect(p, entries[i].0, entries[i].1))
    decreases |entries|
  {
    if entries != [] {
      var init := entries[..|entries| - 1];
      var last := entries[|entries| - 1];
      assert DistinctKeys(init) by {
        forall i, j | 0 <= i < j < |init| ensures init[i].0 != init[j].0 {
          assert init[i] == entries[i] && init[j] == entries[j];
        }
      }
      AttrsEffect(init);
      var q := ApplyAttrs(NoProps, init);
      var p := ApplyAttr(q, last.0, last.1);
      assert p == ApplyAttrs(NoProps, entries);
      StepKeys(q, last.0, last.1);
      forall k | k in p.attributes ensures exists i :: 0 <= i < |entries| && entries[i].0 == k {
        if k in q.attributes && k != last.0 {
          var i :| 0 <= i < |init| && init[i].0 == k;
          assert entries[i] == init[i];
        } else {
          assert entries[|entries| - 1].0 == k;
        }
      }
      assert last.0 !in q.attributes by {
        forall i | 0 <= i < |init| ensures init[i].0 != last.0 {
          assert init[i] == entries[i];
        }
      }
      forall i | 0 <= i < |entries| ensures EntryEffect(p, entries[i].0, entries[i].1) {
        if i < |init| {
          assert entries[i] == init[i];
          StepOther(q, last.0, last.1, entries[i].0, entries[i].1);
        } else {
          StepOwn(q, last.0, last.1);
        }
      }
    }
  }

  /** A step adds at most its own key as an attribute, never `class` or `html`, and
      appends its listener when it registers one. */
  lemma StepKeys(q: ElementProps, k: string, v: AttrValue)
    ensures forall k2 :: k2 in ApplyAttr(q, k, v).attributes ==> k2 in q.attributes || k2 == k
    ensures "class" in ApplyAttr(q, k, v).attributes ==> "class" in q.attributes
    ensures "html" in ApplyAttr(q, k, v).attributes ==> "html" in q.attributes
    ensures ApplyAttr(q, k, v).listeners == q.listeners + (if IsListener(k, v) then [(k[2..], v.source)] else [])
  {
    assert "class"[..2] == "cl" && "html"[..2] == "ht";
  }

  /** A step for another key keeps what an earlier entry left. */
  lemma StepOther(q: ElementProps, k: string, v: AttrValue, k2: string, v2: AttrValue)
    requires EntryEffect(q, k2, v2) && k2 != k
    ensures EntryEffect(ApplyAttr(q, k, v), k2, v2)
  {
  }

  /** A step leaves its own entry's effect when the key had no attribute yet. */
  lemma StepOwn(q: ElementProps, k: string, v: AttrValue)
    requires k !in q.attributes
    ensures EntryEffect(ApplyAttr(q, k, v), k, v)
  {
  }

  /** `Array.isArray(children) ? children : [children]`. */
  function ChildList(children: Children): (r: seq<Child>)
    ensures children.One? ==> r == [children.item]
  {
    match children
    case Many(items) => items
    case One(c) => [c]
  }

  /** The nodes the child loop appends: null and undefined are skipped, strings become text nodes. */
  function Appended(cs: seq<Child>): seq<DomChild>
    decreases |cs|
  {
    if cs == [] then []
    else
      var last := cs[|cs| - 1];
      Appended(cs[..|cs| - 1]) +
        (match last
         case CNull => []
         case CUndefined => []
         case CText(s) => [TextNode(s)]
         case CNode(e) => [ElementNode(e)])
  }

  /** The appended nodes keep input order: the children of `a + b` are those of `a`, then those of `b`. */
  lemma {:induction false} AppendedConcat(a: seq<Child>, b: seq<Child>)
    ensures Appended(a + b) == Appended(a) + Appended(b)
    decreases |b|
  {
    if b != [] {
      assert (a + b)[..|a + b| - 1] == a + b[..|b| - 1];
      assert (a + b)[|a + b| - 1] == b[|b| - 1];
      AppendedConcat(a, b[..|b| - 1]);
    } else {
      assert a + b == a;
    }
  }

  /** A single child maps to at most one node: none for null or undefined, a text node for a string. */
  lemma SingleChild(c: Child)
    ensures Appended([c]) == (match c
                              case CNull => []
                              case CUndefined => []
                              case CText(s) => [TextNode(s)]
                              case CNode(e) => [ElementNode(e)])
  {
    assert [c][..0] == [];
  }

  /** `el(tag, attrs, children)`: a fresh element carrying exactly the attribute effects and child nodes above. */
  method El(tag: string, attrs: Option<seq<(string, AttrValue)>>, children: Children) returns (n: Element)
    ensures fresh(n)
    ensures n.tag == tag
    ensures n.Props() == ApplyAttrs(NoProps, attrs.GetOr([]))
    ensures n.childNodes == Appended(ChildList(children))
  {
    n := new Element(tag);
    var entries := attrs.GetOr([]);
    for i := 0 to |entries|
      invariant n.Props() == ApplyAttrs(NoProps, entries[..i])
      invariant n.childNodes == []
    {
      var (k, v) := entries[i];
      assert entries[..i + 1][..i] == entries[..i];
      if k == "class" {
        n.SetClassName(StringOf(v));
      } else if k == "html" {
        n.SetInnerHtml(HtmlOf(v));
      } else if Text.StartsWith(k, "on") && v.AFn? {
        n.AddEventListener(k[2..], v.source);
      } else if !v.ANull? && !v.AUndefined? {
        n.SetAttribute(k, StringOf(v));
      }
    }
    assert entries[..|entries|] == entries;
    var list := ChildList(children);
    for i := 0 to |list|
      invariant n.Props() == ApplyAttrs(NoProps, entries)
      invariant n.childNodes == Appended(list[..i])
    {
      assert list[..i + 1][..i] == list[..i];
      match list[i]
      case CNull =>
      case CUndefined =>
      case CText(s) => n.AppendChild(TextNode(s));
      case CNode(e) => n.AppendChild(ElementNode(e));
    }
    assert list[..|list|] == list;
  }
}
