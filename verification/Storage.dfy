/** Rendering a document as Confluence storage markup. */
module Storage {
  import opened Text
  import opened Escape
  import opened Adf
  import opened Calendar

  // ---- what is written, as functions of the node ----

  function Elem(tag: string, name: string, body: string): string {
    "<" + tag + ">" + body + "</" + name + ">"
  }

  /** A tag with one attribute. */
  function Attr(name: string, key: string, value: string): string {
    name + " " + key + "=\"" + value + "\""
  }

  function MacroTag(name: string): string {
    Attr("ac:structured-macro", "ac:name", name)
  }

  function Macro(name: string, body: string): string {
    Elem(MacroTag(name), "ac:structured-macro", body)
  }

  function Parameter(name: string, value: string): string {
    Elem(Attr("ac:parameter", "ac:name", name), "ac:parameter", value)
  }

  function Wrap(active: bool, tag: string, body: string): string {
    if active then Elem(tag, tag, body) else body
  }

  function PrintLink(link: string, body: string): string {
    if link == "" then body else Elem(Attr("a", "href", EscapeString(link)), "a", body)
  }

  function PrintText(n: Node): string {
    Wrap(HasMark(n.marks, Em), "em",
         Wrap(HasMark(n.marks, Strong), "strong",
              Wrap(HasMark(n.marks, Code), "code",
                   PrintLink(LinkOf(n.marks), EscapeString(n.text)))))
  }

  function TrimAt(s: string): string {
    if "@" <= s then s[1..] else s
  }

  function PrintMention(attrs: Attrs): string {
    var name := TrimAt(StrAttr(attrs, "text"));
    Elem("ac:link", "ac:link",
         "<" + (Attr("ri:user", "ri:account-id", EscapeString(StrAttr(attrs, "id"))) + " /") + ">" +
         if name == "" then "" else Elem("ac:plain-text-link-body", "ac:plain-text-link-body", EscapeString(name)))
  }

  function PrintStatus(attrs: Attrs): string {
    Macro("status", Parameter("colour", PanelStatusColour(attrs)) +
                    Parameter("title", EscapeString(StrAttr(attrs, "text"))))
  }

  function PrintDate(attrs: Attrs): string {
    match Moment(attrs)
    case None => ""
    case Some(moment) => "<" + (Attr("time", "datetime", CivilText(DayAt(moment))) + " /") + ">"
  }

  /** What an emoji shows: its own text, or its short name between colons. */
  function EmojiText(attrs: Attrs): string {
    if StrAttr(attrs, "text") != "" then StrAttr(attrs, "text") else ":" + StrAttr(attrs, "shortcode") + ":"
  }

  function PrintEmoji(attrs: Attrs): string {
    if StrAttr(attrs, "text") != "" then EscapeString(StrAttr(attrs, "text"))
    else ":" + EscapeString(StrAttr(attrs, "shortcode")) + ":"
  }

  /** A task without an id of its own is named by its place in the list. */
  function NamedAttrs(item: Node, place: nat): Attrs {
    if item.kind == TaskItem && StrAttr(item.attrs, "localId") == ""
    then item.attrs["localId" := Str(Itoa(place + 1))] else item.attrs
  }

  function TaskState(attrs: Attrs): string {
    if "state" in attrs && attrs["state"] == Str("DONE") then "complete" else "incomplete"
  }

  function TaskFields(attrs: Attrs): string {
    Elem("ac:task-id", "ac:task-id", EscapeString(StrAttr(attrs, "localId"))) +
    Elem("ac:task-status", "ac:task-status", TaskState(attrs))
  }

  function PrintNode(n: Node): string
    decreases n, 2
  {
    PrintAs(n, n.attrs)
  }

  /** A node's markup with `attrs` in place of its own attributes. */
  function PrintAs(n: Node, attrs: Attrs): string
    decreases n, 0
  {
    match n.kind
    case Paragraph => Elem("p", "p", PrintNodes(n.content))
    case Heading => Elem("h" + Itoa(Level(attrs)), "h" + Itoa(Level(attrs)), PrintNodes(n.content))
    case BulletList => Elem("ul", "ul", PrintNodes(n.content))
    case OrderedList => Elem("ol", "ol", PrintNodes(n.content))
    case ListItem => Elem("li", "li", PrintNodes(n.content))
    case CodeBlock => Elem("pre", "pre", Elem("code", "code", EscapeString(CollectText(n))))
    case Blockquote => Elem("blockquote", "blockquote", PrintNodes(n.content))
    case Panel => Macro(PanelMacro(attrs), Elem("ac:rich-text-body", "ac:rich-text-body", PrintNodes(n.content)))
    case Status => PrintStatus(attrs)
    case HardBreak => "<br/>"
    case Rule => "<hr/>"
    case Table => Elem("table", "table", PrintNodes(n.content))
    case TableRow => Elem("tr", "tr", PrintNodes(n.content))
    case TableHeader => Elem("th", "th", PrintNodes(n.content))
    case TableCell => Elem("td", "td", PrintNodes(n.content))
    case Mention => PrintMention(attrs)
    case TaskList => Elem("ac:task-list", "ac:task-list", PrintItems(n.content, 0))
    case TaskItem =>
      Elem("ac:task", "ac:task", TaskFields(attrs) + Elem("ac:task-body", "ac:task-body", PrintNodes(n.content)))
    case Date => PrintDate(attrs)
    case Emoji => PrintEmoji(attrs)
    case Media => "[attachment]"
    case Text => PrintText(n)
    case Doc => PrintNodes(n.content)
    case Unknown(_) => PrintNodes(n.content)
  }

  function PrintNodes(ns: seq<Node>): string
    decreases ns, 1
  {
    if ns == [] then "" else PrintNode(ns[0]) + PrintNodes(ns[1..])
  }

  function PrintItems(items: seq<Node>, place: nat): string
    decreases items, 1
  {
    if items == [] then ""
    else PrintItem(items[0], place) + PrintItems(items[1..], place + 1)
  }

  function PrintItem(item: Node, place: nat): string
    decreases item, 2
  {
    PrintAs(item, NamedAttrs(item, place))
  }

  function ToStorage(doc: Node): string {
    PrintNodes(doc.content)
  }

  lemma {:induction false} PrintConcat(a: seq<Node>, b: seq<Node>)
    ensures PrintNodes(a + b) == PrintNodes(a) + PrintNodes(b)
  {
    hide PrintAs, PrintNode;
    if a == [] {
      assert a + b == b;
    } else {
      PrintConcat(a[1..], b);
      assert (a + b)[1..] == a[1..] + b && (a + b)[0] == a[0];
      Assoc(PrintNode(a[0]), PrintNodes(a[1..]), PrintNodes(b));
    }
  }

  lemma PrintNodeIs(n: Node)
    ensures PrintNode(n) == PrintAs(n, n.attrs)
  {
    hide PrintAs;
  }

  lemma PrintOne(n: Node)
    ensures PrintNodes([n]) == PrintNode(n)
  {
    hide PrintAs, PrintNode;
    assert [n][1..] == [];
    assert PrintNodes([]) == "";
  }

  lemma PrintSnoc(a: seq<Node>, n: Node)
    ensures PrintNodes(a + [n]) == PrintNodes(a) + PrintNode(n)
  {
    hide PrintNodes, PrintNode;
    PrintConcat(a, [n]);
    PrintOne(n);
  }

  lemma {:induction false} PrintItemsConcat(a: seq<Node>, b: seq<Node>, place: nat)
    ensures PrintItems(a + b, place) == PrintItems(a, place) + PrintItems(b, place + |a|)
  {
    hide PrintAs, PrintItem;
    if a == [] {
      assert a + b == b;
    } else {
      PrintItemsConcat(a[1..], b, place + 1);
      assert (a + b)[1..] == a[1..] + b && (a + b)[0] == a[0];
      Assoc(PrintItem(a[0], place), PrintItems(a[1..], place + 1), PrintItems(b, place + |a|));
    }
  }

  lemma PrintItemsOne(item: Node, place: nat)
    ensures PrintItems([item], place) == PrintItem(item, place)
  {
    hide PrintAs, PrintItem;
    assert [item][1..] == [];
    assert PrintItems([], place + 1) == "";
  }

  lemma PrintItemsSnoc(a: seq<Node>, item: Node)
    ensures PrintItems(a + [item], 0) == PrintItems(a, 0) + PrintItem(item, |a|)
  {
    hide PrintItems, PrintItem;
    PrintItemsConcat(a, [item], 0);
    PrintItemsOne(item, |a|);
  }

  // ---- the renderer, writing to one shared builder ----

  class Builder {
    var text: string

    constructor ()
      ensures text == ""
    {
      text := "";
    }

    method WriteString(s: string)
      modifies this
      ensures text == old(text) + s
    {
      text := text + s;
    }
  }

  method Render(doc: Node) returns (markup: string)
    ensures markup == ToStorage(doc)
  {
    var b := new Builder();
    RenderNodes(b, doc.content);
    markup := b.text;
  }

  method RenderNodes(b: Builder, nodes: seq<Node>)
    modifies b
    ensures b.text == old(b.text) + PrintNodes(nodes)
    decreases nodes, 1
  {
    hide PrintNode;
    assert PrintNodes([]) == "";
    hide PrintNodes;
    for i := 0 to |nodes|
      invariant b.text == old(b.text) + PrintNodes(nodes[..i])
    {
      RenderNode(b, nodes[i], nodes[i].attrs);
      PrintNodeIs(nodes[i]);
      Assoc(old(b.text), PrintNodes(nodes[..i]), PrintNode(nodes[i]));
      PrintSnoc(nodes[..i], nodes[i]);
      assert nodes[..i + 1] == nodes[..i] + [nodes[i]];
    }
    assert nodes[..|nodes|] == nodes;
  }

  /** Writing an element's three parts in turn writes the element. */
  lemma Assembled(text: string, tag: string, name: string, body: string)
    ensures text + ("<" + tag + ">") + body + ("</" + name + ">") == text + Elem(tag, name, body)
  {
  }

  method Open(b: Builder, tag: string)
    modifies b
    ensures b.text == old(b.text) + ("<" + tag + ">")
  {
    b.WriteString("<" + tag + ">");
  }

  method Close(b: Builder, name: string)
    modifies b
    ensures b.text == old(b.text) + ("</" + name + ">")
  {
    b.WriteString("</" + name + ">");
  }

  method RenderElem(b: Builder, tag: string, name: string, nodes: seq<Node>)
    modifies b
    ensures b.text == old(b.text) + Elem(tag, name, PrintNodes(nodes))
    decreases nodes, 2
  {
    Open(b, tag);
    RenderNodes(b, nodes);
    Close(b, name);
    Assembled(old(b.text), tag, name, PrintNodes(nodes));
  }

  method RenderItems(b: Builder, items: seq<Node>)
    modifies b
    ensures b.text == old(b.text) + PrintItems(items, 0)
    decreases items, 1
  {
    assert PrintItems([], 0) == "";
    hide PrintItems;
    for i := 0 to |items|
      invariant b.text == old(b.text) + PrintItems(items[..i], 0)
    {
      var item := items[i];
      RenderItem(b, item, i);
      Assoc(old(b.text), PrintItems(items[..i], 0), PrintItem(item, i));
      PrintItemsSnoc(items[..i], item);
      assert items[..i + 1] == items[..i] + [item];
    }
    assert items[..|items|] == items;
  }

  method RenderItem(b: Builder, item: Node, i: nat)
    modifies b
    ensures b.text == old(b.text) + PrintItem(item, i)
    decreases item, 1
  {
    var attrs := item.attrs;
    if item.kind == TaskItem && StrAttr(attrs, "localId") == "" {
      attrs := attrs["localId" := Str(Itoa(i + 1))];
    }
    RenderNode(b, item, attrs);
  }

  method RenderMacro(b: Builder, tag: string, name: string, body: string, nodes: seq<Node>)
    modifies b
    ensures b.text == old(b.text) + Elem(tag, name, Elem(body, body, PrintNodes(nodes)))
    decreases nodes, 3
  {
    Open(b, tag);
    RenderElem(b, body, body, nodes);
    Close(b, name);
    Assembled(old(b.text), tag, name, Elem(body, body, PrintNodes(nodes)));
  }

  method RenderTaskList(b: Builder, tag: string, items: seq<Node>)
    modifies b
    ensures b.text == old(b.text) + Elem(tag, tag, PrintItems(items, 0))
    decreases items, 2
  {
    Open(b, tag);
    RenderItems(b, items);
    Close(b, tag);
    Assembled(old(b.text), tag, tag, PrintItems(items, 0));
  }

  method RenderTask(b: Builder, tag: string, fields: string, bodyTag: string, nodes: seq<Node>)
    modifies b
    ensures b.text == old(b.text) + Elem(tag, tag, fields + Elem(bodyTag, bodyTag, PrintNodes(nodes)))
    decreases nodes, 3
  {
    Open(b, tag);
    b.WriteString(fields);
    RenderElem(b, bodyTag, bodyTag, nodes);
    Close(b, tag);
    var body := Elem(bodyTag, bodyTag, PrintNodes(nodes));
    Assembled(old(b.text), tag, tag, fields + body);
    assert old(b.text) + ("<" + tag + ">") + fields + body == old(b.text) + ("<" + tag + ">") + (fields + body);
  }

  method RenderNode(b: Builder, n: Node, attrs: Attrs)
    modifies b
    ensures b.text == old(b.text) + PrintAs(n, attrs)
    decreases n, 0
  {
    hide Elem, MacroTag, PanelMacro, Itoa, Level, PrintNodes, PrintItems, PrintStatus, PrintMention, PrintDate, PrintEmoji, PrintText, TaskFields, EscapeString;
    match n.kind
    case Paragraph => RenderElem(b, "p", "p", n.content);
    case Heading =>
      var tag := "h" + Itoa(Level(attrs));
      RenderElem(b, tag, tag, n.content);
    case BulletList => RenderElem(b, "ul", "ul", n.content);
    case OrderedList => RenderElem(b, "ol", "ol", n.content);
    case ListItem => RenderElem(b, "li", "li", n.content);
    case CodeBlock => b.WriteString(Elem("pre", "pre", Elem("code", "code", EscapeString(CollectText(n)))));
    case Blockquote => RenderElem(b, "blockquote", "blockquote", n.content);
    case Panel => RenderMacro(b, MacroTag(PanelMacro(attrs)), "ac:structured-macro", "ac:rich-text-body", n.content);
    case Status => b.WriteString(PrintStatus(attrs));
    case HardBreak => b.WriteString("<br/>");
    case Rule => b.WriteString("<hr/>");
    case Table => RenderElem(b, "table", "table", n.content);
    case TableRow => RenderElem(b, "tr", "tr", n.content);
    case TableHeader => RenderElem(b, "th", "th", n.content);
    case TableCell => RenderElem(b, "td", "td", n.content);
    case Mention => b.WriteString(PrintMention(attrs));
    case TaskList => RenderTaskList(b, "ac:task-list", n.content);
    case TaskItem => RenderTask(b, "ac:task", TaskFields(attrs), "ac:task-body", n.content);
    case Date => b.WriteString(PrintDate(attrs));
    case Emoji => b.WriteString(PrintEmoji(attrs));
    case Media => b.WriteString("[attachment]");
    case Text => RenderText(b, n);
    case Doc => RenderNodes(b, n.content);
    case Unknown(_) => RenderNodes(b, n.content);
  }

  method RenderText(b: Builder, n: Node)
    modifies b
    ensures b.text == old(b.text) + PrintText(n)
  {
    assert LinkOf([]) == "" && forall kind :: !HasMark([], kind);
    hide Elem, Attr, EscapeString, SafeHref, HasMark, LinkOf, PrintText, PrintLink, Wrap;
    var link, strong, em, code := "", false, false, false;
    assert n.marks[..0] == [];
    for i := 0 to |n.marks|
      invariant b.text == old(b.text)
      invariant link == LinkOf(n.marks[..i])
      invariant strong == HasMark(n.marks[..i], Strong)
      invariant em == HasMark(n.marks[..i], Em)
      invariant code == HasMark(n.marks[..i], Code)
    {
      var m := n.marks[i];
      assert n.marks[..i + 1] == n.marks[..i] + [m];
      ActiveSnoc(n.marks[..i], m);
      match m.kind
      case Strong => strong := true;
      case Em => em := true;
      case Code => code := true;
      case Link =>
        if "href" in m.attrs && m.attrs["href"].Str? {
          link := SafeHref(m.attrs["href"].s);
        }
      case _ =>
    }
    assert n.marks[..|n.marks|] == n.marks;
    var text := WrapText(n.text, link, code, strong, em);
    TextPrints(n);
    b.WriteString(text);
  }

  method WrapText(data: string, link: string, code: bool, strong: bool, em: bool) returns (text: string)
    ensures text == Wrap(em, "em", Wrap(strong, "strong", Wrap(code, "code", PrintLink(link, EscapeString(data)))))
  {
    hide Elem, Attr, EscapeString;
    text := EscapeString(data);
    if link != "" { text := Elem(Attr("a", "href", EscapeString(link)), "a", text); }
    if code { text := Elem("code", "code", text); }
    if strong { text := Elem("strong", "strong", text); }
    if em { text := Elem("em", "em", text); }
  }

  lemma TextPrints(n: Node)
    ensures PrintText(n) == Wrap(HasMark(n.marks, Em), "em", Wrap(HasMark(n.marks, Strong), "strong",
                              Wrap(HasMark(n.marks, Code), "code", PrintLink(LinkOf(n.marks), EscapeString(n.text)))))
  {
    hide Wrap, PrintLink, HasMark, LinkOf, EscapeString;
  }

  lemma ActiveSnoc(marks: seq<Mark>, m: Mark)
    ensures forall kind :: HasMark(marks + [m], kind) <==> HasMark(marks, kind) || m.kind == kind
    ensures LinkOf(marks + [m]) ==
            if m.kind.Link? && "href" in m.attrs && m.attrs["href"].Str?
            then SafeHref(m.attrs["href"].s) else LinkOf(marks)
  {
    var all := marks + [m];
    assert all[..|all| - 1] == marks;
    forall kind ensures HasMark(all, kind) <==> HasMark(marks, kind) || m.kind == kind {
      assert all[|marks|] == m;
      if HasMark(marks, kind) {
        var i :| 0 <= i < |marks| && marks[i].kind == kind;
        assert all[i].kind == kind;
      }
    }
  }
}
