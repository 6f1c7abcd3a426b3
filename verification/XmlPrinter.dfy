// Compact printing of XML.
module XmlPrinter {
  import opened XmlText
  import opened XmlParser

  function PrintAttribute(a: Attribute): seq<Char> {
    " " + a.name + "=\"" + Escape(a.value, false) + "\""
  }

  function PrintAttributes(attributes: seq<Attribute>): seq<Char> {
    if attributes == [] then [] else PrintAttribute(attributes[0]) + PrintAttributes(attributes[1..])
  }

  function PrintNode(node: Node): seq<Char> {
    match node
    case Text(value) => Escape(value, true)
    case Element(name, attributes, children) =>
      "<" + name + PrintAttributes(attributes)
      + if children == [] then "/>" else ">" + PrintNodes(children) + "</" + name + ">"
  }

  function PrintNodes(nodes: seq<Node>): seq<Char> {
    if nodes == [] then [] else PrintNode(nodes[0]) + PrintNodes(nodes[1..])
  }

  // XMLPrinter in compact mode. A start tag is sealed only when it is known
  // whether the element has children.
  class Printer {
    var out: seq<Char>
    var stack: seq<seq<Char>>
    var justOpened: bool

    constructor ()
      ensures out == [] && stack == [] && !justOpened
    {
      out, stack, justOpened := [], [], false;
    }

    ghost function Sealed(): seq<Char>
      reads this
    {
      out + if justOpened then ">" else ""
    }

    method SealElementIfJustOpened()
      modifies `out, `justOpened
      ensures out == old(Sealed()) && !justOpened
    {
      if justOpened {
        justOpened := false;
        out := out + ">";
      }
    }

    method OpenElement(name: seq<Char>)
      modifies this
      ensures out == old(Sealed()) + "<" + name && justOpened && stack == old(stack) + [name]
    {
      SealElementIfJustOpened();
      stack := stack + [name];
      out := out + "<" + name;
      justOpened := true;
    }

    method PushAttribute(a: Attribute)
      modifies `out
      ensures out == old(out) + PrintAttribute(a)
    {
      var value := PrintString(a.value, false);
      out := out + (" " + a.name + "=\"") + value + "\"";
    }

    method PushText(text: seq<Char>)
      modifies `out, `justOpened
      ensures out == old(Sealed()) + Escape(text, true) && !justOpened
    {
      SealElementIfJustOpened();
      var escaped := PrintString(text, true);
      out := out + escaped;
    }

    method CloseElement()
      requires stack != []
      modifies this
      ensures stack == old(stack)[..|old(stack)| - 1] && !justOpened
      ensures out == old(out) + if old(justOpened) then "/>" else "</" + old(stack)[|old(stack)| - 1] + ">"
    {
      var name := stack[|stack| - 1];
      stack := stack[..|stack| - 1];
      out := out + if justOpened then "/>" else "</" + name + ">";
      justOpened := false;
    }

    // Accept: an element, its attributes and its children, or a text.
    method Visit(node: Node)
      modifies this
      ensures out == old(Sealed()) + PrintNode(node) && !justOpened && stack == old(stack)
      decreases node, 1
    {
      hide PrintNodes, PrintAttributes, Escape;
      match node {
        case Text(value) => PushText(value);
        case Element(name, attributes, children) =>
          ghost var before, tag := Sealed(), PrintAttributes(attributes);
          OpenElement(name);
          VisitAttributes(attributes);
          VisitChildren(children);
          CloseElement();
          if children == [] {
            assert out == before + "<" + name + tag + "/>";
          } else {
            ghost var kids := PrintNodes(children);
            assert out == before + "<" + name + tag + ">" + kids + ("</" + name + ">");
            assert out == before + ("<" + name + tag + (">" + kids + "</" + name + ">"));
          }
      }
    }

    method VisitAttributes(attributes: seq<Attribute>)
      modifies `out
      ensures out == old(out) + PrintAttributes(attributes)
    {
      hide PrintAttribute;
      ghost var start := out;
      for i := 0 to |attributes|
        invariant out + PrintAttributes(attributes[i..]) == start + PrintAttributes(attributes)
      {
        assert attributes[i..][1..] == attributes[i + 1..];
        PushAttribute(attributes[i]);
      }
    }

    method VisitChildren(children: seq<Node>)
      modifies this
      ensures stack == old(stack)
      ensures if children == [] then out == old(out) && justOpened == old(justOpened)
              else out == old(Sealed()) + PrintNodes(children) && !justOpened
      decreases children, 0
    {
      hide PrintNode;
      ghost var start := Sealed();
      for i := 0 to |children|
        invariant stack == old(stack) && Sealed() + PrintNodes(children[i..]) == start + PrintNodes(children)
        invariant if i == 0 then out == old(out) && justOpened == old(justOpened) else !justOpened
      {
        assert children[i..][1..] == children[i + 1..];
        Visit(children[i]);
        assert Sealed() == out;
      }
    }
  }
}
