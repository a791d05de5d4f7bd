/** The first status inside a panel stands where the parser looks for the panel's title. */
module PanelTitles {
  import opened Text
  import opened Escape
  import opened Adf
  import opened Storage
  import opened Markup
  import opened HtmlReader
  import opened StorageNested
  import opened Reading
  import opened Settle
  import opened RoundTripLeaves
  import opened PanelParts
  import opened Gather

  /** Markup up to the first title parameter, whose value is `text`, and what follows it. */
  predicate Splits(s: string, a: string, text: string, b: string) {
    && Complete(a) && TITLE !in Tags(a)
    && s == a + ("<" + TITLE + ">") + (EscapeString(text) + "</ac:parameter>" + b)
  }

  lemma SplitBehind(pre: string, s: string, a: string, text: string, b: string)
    requires Complete(pre) && TITLE !in Tags(pre) && Splits(s, a, text, b)
    ensures Splits(pre + s, pre + a, text, b)
  {
    hide Complete, Tags, EscapeString;
    CompleteConcat(pre, a);
    var t, v := "<" + TITLE + ">", EscapeString(text) + "</ac:parameter>" + b;
    Assoc(pre, a, t);
    Assoc(pre, a + t, v);
  }

  lemma SplitBefore(s: string, post: string, a: string, text: string, b: string)
    requires Splits(s, a, text, b)
    ensures Splits(s + post, a, text, b + post)
  {
    hide Complete, Tags, EscapeString;
    var v := EscapeString(text) + "</ac:parameter>";
    Assoc(v, b, post);
    Assoc(a + ("<" + TITLE + ">"), v + b, post);
  }

  /** Through an opening tag and a closing tag. */
  lemma SplitElem(tag: string, name: string, body: string, a: string, text: string, b: string)
    requires '<' !in tag && '>' !in tag && tag != TITLE && Splits(body, a, text, b)
    ensures Splits(Elem(tag, name, body), "<" + tag + ">" + a, text, b + ("</" + name + ">"))
  {
    hide Complete, Tags, Splits;
    CompleteTag(tag);
    SplitBehind("<" + tag + ">", body, a, text, b);
    SplitBefore("<" + tag + ">" + body, "</" + name + ">", "<" + tag + ">" + a, text, b);
    assert Elem(tag, name, body) == "<" + tag + ">" + body + ("</" + name + ">");
  }

  lemma SplitSimple(name: string, body: string, a: string, text: string, b: string)
    requires PlainName(name) && Splits(body, a, text, b)
    ensures Splits(Elem(name, name, body), "<" + name + ">" + a, text, b + ("</" + name + ">"))
  {
    hide Splits, Elem;
    NameInert(name);
    PlainIsNoMarker(name);
    SplitElem(name, name, body, a, text, b);
  }

  lemma AvoidsComplete(s: string)
    requires Avoids(s, TITLE)
    ensures Complete(s) && TITLE !in Tags(s)
  {
  }

  lemma StatusSplits(attrs: Attrs) returns (a: string, b: string)
    ensures Splits(PrintStatus(attrs), a, StrAttr(attrs, "text"), b)
  {
    hide Complete, Tags, Attr, PanelStatusColour, StrAttr, EscapeString, Splits, Parameter;
    var colour, text := PanelStatusColour(attrs), StrAttr(attrs, "text");
    StatusNames();
    ColourIsText(attrs);
    ParameterNested("colour", colour);
    NestedComplete(Parameter("colour", colour));
    ColourIsNoTitle();
    var title := Parameter("title", EscapeString(text));
    TitleSplits(text);
    SplitBehind(Parameter("colour", colour), title, "", text, "");
    MacroNames();
    NameInert("status");
    MacroTagShape();
    SplitElem(MacroTag("status"), "ac:structured-macro", Parameter("colour", colour) + title,
              Parameter("colour", colour) + "", text, "");
    a := "<" + MacroTag("status") + ">" + (Parameter("colour", colour) + "");
    b := "" + ("</" + "ac:structured-macro" + ">");
  }

  lemma TitleSplits(text: string)
    ensures Splits(Parameter("title", EscapeString(text)), "", text, "")
  {
    hide Attr, EscapeString;
    var value := EscapeString(text) + "</ac:parameter>" + "";
    assert Parameter("title", EscapeString(text)) == "" + ("<" + TITLE + ">") + value by {
      assert "</" + "ac:parameter" + ">" == "</ac:parameter>";
    }
  }

  lemma MacroTagShape()
    ensures '<' !in MacroTag("status") && '>' !in MacroTag("status") && MacroTag("status") != TITLE
  {
    hide MacroTag;
    MacroTagIsNoMarker("status");
  }

  /** Blocks, and what may stand in them, printed in the order of the document. */
  predicate Ordered(n: Node) {
    || InlineKind(n.kind) || n.kind == Rule || n.kind == CodeBlock
    || (n.kind in {Paragraph, Heading, BulletList, OrderedList, ListItem, Blockquote, Panel, TaskList, TaskItem} &&
        forall c :: c in n.content ==> Ordered(c) && (n.kind == TaskList ==> c.kind == TaskItem))
  }

  lemma {:induction false} ShapeOrdered(n: Node)
    requires Mixed(n) || (n.kind == ListItem && LooseItem(n)) || (n.kind == TaskItem && AllInline(n.content))
    ensures Ordered(n)
  {
    if PrintsContent(n.kind) {
      forall c | c in n.content ensures Ordered(c) {
        ShapeOrdered(c);
      }
    }
  }

  lemma {:induction false} NodeSplits(n: Node, attrs: Attrs) returns (a: string, b: string)
    requires Ordered(n) && StatusIn(n).Some? && (n.kind == Status ==> attrs == n.attrs)
    ensures Splits(PrintAs(n, attrs), a, StatusIn(n).value, b)
    decreases n, 0
  {
    hide Splits, Elem, PrintStatus, TaskFields;
    if n.kind == Status {
      a, b := StatusSplits(attrs);
    } else if n.kind == TaskList {
      var a', b' := ItemsSplit(n.content, 0);
      TaskNames();
      var text := StatusIn(n).value;
      hide StatusIn;
      SplitSimple("ac:task-list", PrintItems(n.content, 0), a', text, b');
      a, b := "<" + "ac:task-list" + ">" + a', b' + ("</" + "ac:task-list" + ">");
    } else {
      var a', b' := NodesSplit(n.content);
      a, b := AroundBody(n, attrs, a', StatusIn(n).value, b');
    }
  }

  lemma AroundBody(n: Node, attrs: Attrs, a: string, text: string, b: string) returns (a': string, b': string)
    requires n.kind in {Paragraph, Heading, BulletList, OrderedList, ListItem, Blockquote, Panel, TaskItem}
    requires Splits(PrintNodes(n.content), a, text, b)
    ensures Splits(PrintAs(n, attrs), a', text, b')
  {
    hide Splits, Elem, PrintNodes, PlainName, TaskFields;
    var body := PrintNodes(n.content);
    if n.kind == TaskItem {
      TaskNames();
      SplitSimple("ac:task-body", body, a, text, b);
      var fields, inner := TaskFields(attrs), Elem("ac:task-body", "ac:task-body", body);
      AvoidsFields(attrs, TITLE);
      AvoidsComplete(fields);
      SplitBehind(fields, inner, "<" + "ac:task-body" + ">" + a, text, b + ("</" + "ac:task-body" + ">"));
      SplitSimple("ac:task", fields + inner, fields + ("<" + "ac:task-body" + ">" + a), text, b + ("</" + "ac:task-body" + ">"));
      a' := "<" + "ac:task" + ">" + (fields + ("<" + "ac:task-body" + ">" + a));
      b' := b + ("</" + "ac:task-body" + ">") + ("</" + "ac:task" + ">");
    } else if n.kind == Panel {
      a', b' := AroundPanel(attrs, body, a, text, b);
    } else {
      var name := BlockName(n.kind, attrs);
      BlockNameIs(n, attrs);
      SplitSimple(name, body, a, text, b);
      a', b' := "<" + name + ">" + a, b + ("</" + name + ">");
    }
  }

  lemma AroundPanel(attrs: Attrs, body: string, a: string, text: string, b: string) returns (a': string, b': string)
    requires Splits(body, a, text, b)
    ensures Splits(Macro(PanelMacro(attrs), Elem(BODY, BODY, body)), a', text, b')
  {
    hide Splits, Elem, PlainName, PanelMacro, MacroTag;
    var tag := MacroTag(PanelMacro(attrs));
    MacroNames();
    MacroIsName(attrs);
    NameInert(PanelMacro(attrs));
    MacroTagIsNoMarker(PanelMacro(attrs));
    SplitSimple(BODY, body, a, text, b);
    SplitElem(tag, "ac:structured-macro", Elem(BODY, BODY, body), "<" + BODY + ">" + a, text, b + ("</" + BODY + ">"));
    a' := "<" + tag + ">" + ("<" + BODY + ">" + a);
    b' := b + ("</" + BODY + ">") + ("</" + "ac:structured-macro" + ">");
  }

  /** The element a plain block is written as. */
  function BlockName(kind: Kind, attrs: Attrs): string {
    match kind
    case Heading => "h" + Itoa(Level(attrs))
    case BulletList => "ul"
    case OrderedList => "ol"
    case ListItem => "li"
    case Blockquote => "blockquote"
    case _ => "p"
  }

  lemma BlockNameIs(n: Node, attrs: Attrs)
    requires n.kind in {Paragraph, Heading, BulletList, OrderedList, ListItem, Blockquote}
    ensures var name := BlockName(n.kind, attrs);
            PrintAs(n, attrs) == Elem(name, name, PrintNodes(n.content)) && PlainName(name)
  {
    hide Elem, PrintNodes, PlainName;
    BlockNames();
    HeadingName(Level(attrs));
  }

  lemma {:induction false} NodesSplit(ns: seq<Node>) returns (a: string, b: string)
    requires (forall c :: c in ns ==> Ordered(c)) && FirstStatus(ns).Some?
    ensures Splits(PrintNodes(ns), a, FirstStatus(ns).value, b)
    decreases ns, 1
  {
    hide Splits, PrintAs, StatusIn;
    var n, rest := ns[0], PrintNodes(ns[1..]);
    if StatusIn(n).Some? {
      a, b := NodeSplits(n, n.attrs);
      SplitBefore(PrintNode(n), rest, a, StatusIn(n).value, b);
      b := b + rest;
    } else {
      a, b := NodesSplit(ns[1..]);
      OrderedFree(n);
      AvoidsNode(n, n.attrs, TITLE);
      AvoidsComplete(PrintNode(n));
      SplitBehind(PrintNode(n), rest, a, FirstStatus(ns).value, b);
      a := PrintNode(n) + a;
    }
  }

  lemma OrderedFree(n: Node)
    requires Ordered(n) && StatusIn(n).None?
    ensures Free(n, TITLE)
  {
  }

  lemma {:induction false} ItemsSplit(items: seq<Node>, place: nat) returns (a: string, b: string)
    requires (forall c :: c in items ==> Ordered(c) && c.kind != Status) && FirstStatus(items).Some?
    ensures Splits(PrintItems(items, place), a, FirstStatus(items).value, b)
    decreases items, 1
  {
    hide Splits, PrintAs, StatusIn;
    var n, rest := items[0], PrintItems(items[1..], place + 1);
    if StatusIn(n).Some? {
      a, b := NodeSplits(n, NamedAttrs(n, place));
      SplitBefore(PrintItem(n, place), rest, a, StatusIn(n).value, b);
      b := b + rest;
    } else {
      a, b := ItemsSplit(items[1..], place + 1);
      OrderedFree(n);
      AvoidsNode(n, NamedAttrs(n, place), TITLE);
      AvoidsComplete(PrintItem(n, place));
      SplitBehind(PrintItem(n, place), rest, a, FirstStatus(items).value, b);
      a := PrintItem(n, place) + a;
    }
  }

  // ---- what the parser takes from a panel ----

  /** What stands between the first open marker and the first close marker behind it. */
  lemma BodyBetween(element: string, x: string, y: string)
    requires Index(x + ("</" + element + ">") + y, "</" + element + ">") == |x|
    ensures MacroBody(("<" + element + ">") + (x + ("</" + element + ">") + y), element) == x
  {
    hide Index;
    var open, rest := "<" + element + ">", x + ("</" + element + ">") + y;
    IndexFirst(open + rest, open, 0);
    assert (open + rest)[0..] == open + rest;
    assert (open + rest)[|open|..] == rest && rest[..|x|] == x;
  }

  lemma BodyEnd()
    ensures "</" + BODY + ">" == "<" + BODY_END + ">" && '<' !in BODY_END && '>' !in BODY_END
  {
    MarkerFacts();
  }

  lemma NoTitleIn(inner: string)
    requires Complete(inner) && TITLE !in Tags(inner)
    ensures MacroParameter(inner, "title") == ""
  {
    hide Complete, Tags, Index;
    TitleInert();
    NoTag(inner, TITLE);
  }

  lemma NoTitle(body: string)
    requires Avoids(body, TITLE)
    ensures MacroParameter(Elem(BODY, BODY, body), "title") == ""
  {
    hide WellNested, Complete, Tags, Elem, MacroParameter;
    MacroNames();
    NestedSimple(BODY, body);
    NestedComplete(Elem(BODY, BODY, body));
    PlainIsNoMarker(BODY);
    NoTitleIn(Elem(BODY, BODY, body));
  }

  lemma TitleInert()
    ensures '<' !in TITLE && '>' !in TITLE
  {
  }

  lemma TitleFound(inner: string, a: string, text: string, b: string)
    requires Splits(inner, a, text, b)
    ensures MacroParameter(inner, "title") == TrimSpace(text)
  {
    hide MacroParameter, Splits, EscapeString, UnescapeString, TrimSpace, Attr;
    EscapeIsInert(text);
    EscapeTrim(text);
    StatusNames();
    SplitParameter(inner, a, text, b);
    ParameterAt(a, "title", EscapeString(text), b);
  }

  lemma TitleAt(body: string, a: string, text: string, b: string)
    requires Splits(body, a, text, b)
    ensures MacroParameter(Elem(BODY, BODY, body), "title") == TrimSpace(text)
  {
    hide MacroParameter, Splits, TrimSpace, Elem, PlainName;
    MacroNames();
    SplitSimple(BODY, body, a, text, b);
    TitleFound(Elem(BODY, BODY, body), "<" + BODY + ">" + a, text, b + ("</" + BODY + ">"));
  }

  lemma SplitParameter(s: string, a: string, text: string, b: string)
    requires Splits(s, a, text, b)
    ensures s == a + Parameter("title", EscapeString(text)) + b
    ensures Complete(a) && TITLE !in Tags(a)
  {
    hide Complete, Tags, EscapeString;
    ParameterParts(a, TITLE, EscapeString(text), b);
  }

  /** A panel's title reads as the text of the first status in it. */
  lemma TitleIs(ns: seq<Node>)
    requires AllMixed(ns)
    ensures MacroParameter(Elem(BODY, BODY, PrintNodes(ns)), "title") == StolenTitle(ns)
  {
    hide MacroParameter, Elem, PrintNodes, Splits, Avoids, LooseBlock, HasPanel, Ordered, TrimSpace, FirstStatus, Free;
    forall c | c in ns ensures Ordered(c) { ShapeOrdered(c); }
    if FirstStatus(ns).Some? {
      var a, b := NodesSplit(ns);
      TitleAt(PrintNodes(ns), a, FirstStatus(ns).value, b);
    } else {
      NoStatusInside(ns);
      forall c | c in ns ensures Free(c, TITLE) { OrderedFree(c); }
      AvoidsNodes(ns, TITLE);
      NoTitle(PrintNodes(ns));
    }
  }
}
