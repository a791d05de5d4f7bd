/** Where a panel's body ends and what is taken for its title when it is read back. */
module PanelParts {
  import opened Text
  import opened Escape
  import opened Adf
  import opened Calendar
  import opened Storage
  import opened Markup
  import opened HtmlReader
  import opened StorageNested
  import opened Reading
  import opened Settle
  import opened RoundTripInline
  import opened RoundTripLeaves

  /** The two tags a panel is read by: a title's, and the end of its body. */
  const TITLE := Attr("ac:parameter", "ac:name", "title")
  const BODY := "ac:rich-text-body"
  const BODY_END := "/ac:rich-text-body"

  predicate Avoids(s: string, t: string) {
    WellNested(s) && t !in Tags(s)
  }

  lemma MarkerFacts()
    ensures TITLE[0] == 'a' && TITLE[1] == 'c' && TITLE[3] == 'p' && |TITLE| == 28 && ' ' in TITLE
    ensures BODY_END[0] == '/' && BODY_END == "/" + BODY
  {
  }

  lemma PlainIsNoMarker(name: string)
    requires PlainName(name)
    ensures name != TITLE && name != BODY_END
    ensures "/" + name != TITLE
    ensures name != BODY ==> "/" + name != BODY_END
  {
    MarkerFacts();
    assert !NameChar(' ') && !NameChar('/');
    assert ("/" + name)[0] == '/' && ("/" + name)[1..] == name;
    assert BODY_END[1..] == BODY;
  }

  lemma AvoidsText(s: string, t: string)
    requires '<' !in s
    ensures Avoids(s, t)
  {
    hide WellNested, Tags;
    NestedText(s);
  }

  lemma AvoidsConcat(a: string, b: string, t: string)
    requires Avoids(a, t) && Avoids(b, t)
    ensures Avoids(a + b, t)
  {
    hide WellNested, Tags;
    NestedConcat(a, b);
  }

  lemma AvoidsSimple(name: string, body: string, t: string)
    requires PlainName(name) && name != BODY && (t == TITLE || t == BODY_END) && Avoids(body, t)
    ensures Avoids(Elem(name, name, body), t)
  {
    hide WellNested, Tags, Elem, PlainName;
    NestedSimple(name, body);
    PlainIsNoMarker(name);
  }

  lemma AvoidsAttr(name: string, key: string, value: string, body: string, t: string)
    requires PlainName(name) && PlainName(key) && '<' !in value && '>' !in value && name != BODY
    requires (t == TITLE || t == BODY_END) && Attr(name, key, value) != t && Avoids(body, t)
    ensures Avoids(Elem(Attr(name, key, value), name, body), t)
  {
    hide WellNested, Tags, Elem, PlainName, Attr;
    Attributed(name, key, value, body);
    PlainIsNoMarker(name);
  }

  lemma AttrInert(name: string, key: string, value: string)
    requires '<' !in name && '<' !in key && '<' !in value && '>' !in name && '>' !in key && '>' !in value
    ensures '<' !in Attr(name, key, value) && '>' !in Attr(name, key, value)
    ensures name <= Attr(name, key, value)
  {
    var mid, end := "=\"", "\"";
    assert '<' !in mid && '>' !in mid && '<' !in end && '>' !in end && '<' !in " " && '>' !in " ";
  }

  lemma MacroTagIsNoMarker(name: string)
    requires '<' !in name && '>' !in name
    ensures MacroTag(name) != TITLE && MacroTag(name) != BODY_END
    ensures '<' !in MacroTag(name) && '>' !in MacroTag(name)
  {
    hide Attr;
    MarkerFacts();
    var head := "ac:structured-macro";
    AttrInert(head, "ac:name", name);
    assert head[0] == 'a' && head[3] == 's';
    assert MacroTag(name)[0] == head[0] && MacroTag(name)[3] == head[3];
  }

  /** A panel that holds none: its own body ends in it, so only titles are avoided. */
  lemma AvoidsPanel(attrs: Attrs, body: string)
    requires Avoids(body, TITLE)
    ensures Avoids(Macro(PanelMacro(attrs), Elem(BODY, BODY, body)), TITLE)
  {
    hide WellNested, Tags, Elem, PlainName, MacroTag, Macro, PanelMacro;
    MacroNames();
    MacroIsName(attrs);
    NameInert(PanelMacro(attrs));
    NestedSimple(BODY, body);
    PlainIsNoMarker(BODY);
    MacroNested(PanelMacro(attrs), Elem(BODY, BODY, body));
    MacroTagIsNoMarker(PanelMacro(attrs));
    MarkerFacts();
    assert "/ac:structured-macro"[0] == '/';
  }

  // ---- leaves ----

  lemma AvoidsWrap(active: bool, name: string, body: string, t: string)
    requires PlainName(name) && name != BODY && (t == TITLE || t == BODY_END) && Avoids(body, t)
    ensures Avoids(Wrap(active, name, body), t)
  {
    hide Avoids, Elem, PlainName;
    if active {
      AvoidsSimple(name, body, t);
    }
  }

  lemma LinkTagIsNoMarker(link: string)
    ensures Attr("a", "href", link) != TITLE && Attr("a", "href", link) != BODY_END
  {
    MarkerFacts();
    assert Attr("a", "href", link)[0] == 'a' && Attr("a", "href", link)[1] == ' ';
  }

  lemma AvoidsPrintedText(n: Node, t: string)
    requires t == TITLE || t == BODY_END
    ensures Avoids(PrintText(n), t)
  {
    hide Avoids, Wrap, Elem, Attr, PlainName, LinkOf, HasMark;
    InlineNames();
    var link, text := LinkOf(n.marks), EscapeString(n.text);
    EscapeIsInert(n.text);
    EscapeIsInert(link);
    AvoidsText(text, t);
    LinkTagIsNoMarker(EscapeString(link));
    if link != "" {
      AvoidsAttr("a", "href", EscapeString(link), text, t);
    }
    var linked := PrintLink(link, text);
    assert Avoids(linked, t);
    hide PrintLink, EscapeString;
    var coded := Wrap(HasMark(n.marks, Code), "code", linked);
    AvoidsWrap(HasMark(n.marks, Code), "code", linked, t);
    AvoidsWrap(HasMark(n.marks, Strong), "strong", coded, t);
    AvoidsWrap(HasMark(n.marks, Em), "em", Wrap(HasMark(n.marks, Strong), "strong", coded), t);
  }

  lemma AvoidsMention(attrs: Attrs, t: string)
    requires t == TITLE || t == BODY_END
    ensures Avoids(PrintMention(attrs), t)
  {
    hide Avoids, Elem, PlainName, StrAttr, TrimAt;
    var id, name := StrAttr(attrs, "id"), TrimAt(StrAttr(attrs, "text"));
    LinkNames();
    AvoidsUser(id, t);
    EscapeIsInert(name);
    AvoidsText(EscapeString(name), t);
    AvoidsText("", t);
    if name != "" {
      AvoidsSimple("ac:plain-text-link-body", EscapeString(name), t);
    }
    AvoidsConcat(UserElem(id), LabelElem(name), t);
    AvoidsSimple("ac:link", UserElem(id) + LabelElem(name), t);
  }

  lemma AvoidsUser(id: string, t: string)
    requires t == TITLE || t == BODY_END
    ensures Avoids(UserElem(id), t)
  {
    hide WellNested, Tags, EscapeString;
    LinkNames();
    EscapeIsInert(id);
    EmptyAttributed("ri:user", "ri:account-id", EscapeString(id));
    MarkerFacts();
    assert (Attr("ri:user", "ri:account-id", EscapeString(id)) + " /")[0] == 'r';
  }

  lemma AvoidsDate(attrs: Attrs, t: string)
    requires t == TITLE || t == BODY_END
    ensures Avoids(PrintDate(attrs), t)
  {
    hide WellNested, Tags, CivilText, DayAt, Moment;
    InlineNames();
    NestedText("");
    if Moment(attrs).Some? {
      var day := DayAt(Moment(attrs).value);
      DayInert(day);
      EmptyAttributed("time", "datetime", CivilText(day));
      MarkerFacts();
      assert (Attr("time", "datetime", CivilText(day)) + " /")[0] == 't';
    }
  }

  lemma AvoidsEmoji(attrs: Attrs, t: string)
    ensures Avoids(PrintEmoji(attrs), t)
  {
    EscapeIsInert(StrAttr(attrs, "text"));
    EscapeIsInert(StrAttr(attrs, "shortcode"));
    hide Avoids, EscapeString;
    AvoidsText(PrintEmoji(attrs), t);
  }

  lemma AvoidsEmpty(name: string, t: string)
    requires PlainName(name) && (t == TITLE || t == BODY_END)
    ensures Avoids("<" + (name + "/") + ">", t)
  {
    hide WellNested, Tags;
    var tag := name + "/";
    PlainFacts(name);
    NameInert(name);
    NameOfIs(name, "/");
    LowerId(tag);
    NestedEmpty(tag);
    MarkerFacts();
    assert tag[|tag| - 1] == '/' && TITLE[|TITLE| - 1] == '"' && BODY_END[|BODY_END| - 1] == 'y';
  }

  lemma AvoidsBreak(t: string)
    requires t == TITLE || t == BODY_END
    ensures Avoids("<br/>", t) && Avoids("<hr/>", t) && Avoids("[attachment]", t) && Avoids("", t)
  {
    hide Avoids;
    AvoidsEmpty("br", t);
    AvoidsEmpty("hr", t);
    AvoidsText("[attachment]", t);
    AvoidsText("", t);
    assert "<" + ("br" + "/") + ">" == "<br/>" && "<" + ("hr" + "/") + ">" == "<hr/>";
  }

  lemma AvoidsStatus(attrs: Attrs)
    ensures Avoids(PrintStatus(attrs), BODY_END)
  {
    hide WellNested, Tags, PrintStatus;
    StatusNested(attrs);
    MarkerFacts();
    assert MacroTag("status")[0] == 'a' && Attr("ac:parameter", "ac:name", "colour")[0] == 'a';
    assert |"/ac:parameter"| == 13 && |"/ac:structured-macro"| == 20 && |BODY_END| == 18;
  }

  lemma AvoidsCode(n: Node, t: string)
    requires t == TITLE || t == BODY_END
    ensures Avoids(Elem("pre", "pre", Elem("code", "code", EscapeString(CollectText(n)))), t)
  {
    hide Avoids, Elem, PlainName;
    BlockNames();
    InlineNames();
    EscapeIsInert(CollectText(n));
    AvoidsText(EscapeString(CollectText(n)), t);
    AvoidsSimple("code", EscapeString(CollectText(n)), t);
    AvoidsSimple("pre", Elem("code", "code", EscapeString(CollectText(n))), t);
  }

  lemma AvoidsFields(attrs: Attrs, t: string)
    requires t == TITLE || t == BODY_END
    ensures Avoids(TaskFields(attrs), t)
  {
    hide Avoids, Elem, PlainName, EscapeString;
    TaskNames();
    EscapeIsInert(StrAttr(attrs, "localId"));
    AvoidsText(EscapeString(StrAttr(attrs, "localId")), t);
    AvoidsText(TaskState(attrs), t);
    AvoidsSimple("ac:task-id", EscapeString(StrAttr(attrs, "localId")), t);
    AvoidsSimple("ac:task-status", TaskState(attrs), t);
    AvoidsConcat(Elem("ac:task-id", "ac:task-id", EscapeString(StrAttr(attrs, "localId"))),
                 Elem("ac:task-status", "ac:task-status", TaskState(attrs)), t);
  }

  lemma AvoidsTask(attrs: Attrs, body: string, t: string)
    requires (t == TITLE || t == BODY_END) && Avoids(body, t)
    ensures Avoids(Elem("ac:task", "ac:task", TaskFields(attrs) + Elem("ac:task-body", "ac:task-body", body)), t)
  {
    hide Avoids, Elem, PlainName, TaskFields;
    TaskNames();
    AvoidsFields(attrs, t);
    AvoidsSimple("ac:task-body", body, t);
    AvoidsConcat(TaskFields(attrs), Elem("ac:task-body", "ac:task-body", body), t);
    AvoidsSimple("ac:task", TaskFields(attrs) + Elem("ac:task-body", "ac:task-body", body), t);
  }

  // ---- whole nodes ----

  /** No panel in it for the end of a body, or no status for a title: the marker stands nowhere in the markup. */
  predicate Free(n: Node, t: string) {
    || (t == BODY_END && !HasPanel(n))
    || (t == TITLE && StatusIn(n).None?)
  }

  lemma FreeInside(n: Node, t: string)
    requires Free(n, t) && PrintsContent(n.kind)
    ensures forall c :: c in n.content ==> Free(c, t)
  {
    MarkerFacts();
    if t == TITLE {
      NoStatusInside(n.content);
    }
  }

  lemma {:induction false} NoStatusInside(ns: seq<Node>)
    requires FirstStatus(ns).None?
    ensures forall c :: c in ns ==> StatusIn(c).None?
  {
    hide StatusIn;
    if ns != [] {
      NoStatusInside(ns[1..]);
      assert ns == [ns[0]] + ns[1..];
    }
  }

  lemma {:induction false} AvoidsNode(n: Node, attrs: Attrs, t: string)
    requires Free(n, t)
    ensures Avoids(PrintAs(n, attrs), t)
    decreases n, 0
  {
    hide Avoids, Elem, PrintText, PrintMention, PrintStatus, PrintDate, PrintEmoji, TaskFields, PlainName;
    MarkerFacts();
    if !PrintsContent(n.kind) {
      AvoidsLeaf(n, attrs, t);
    } else {
      FreeInside(n, t);
      AvoidsNodes(n.content, t);
      hide PrintNodes, HasPanel, StatusIn;
      var body := PrintNodes(n.content);
      match n.kind
      case Heading => HeadingName(Level(attrs)); AvoidsHeading(Level(attrs), body, t);
      case Panel =>
        PanelHasPanel(n);
        AvoidsPanel(attrs, body);
      case TaskList =>
        AvoidsItems(n.content, 0, t);
        TaskNames();
        AvoidsSimple("ac:task-list", PrintItems(n.content, 0), t);
      case TaskItem => AvoidsTask(attrs, body, t);
      case Doc =>
      case Unknown(_) =>
      case _ => AvoidsPlainBlock(n, attrs, t);
    }
  }

  lemma AvoidsHeading(level: nat, body: string, t: string)
    requires 1 <= level <= 6 && (t == TITLE || t == BODY_END) && Avoids(body, t)
    ensures Avoids(Elem("h" + Itoa(level), "h" + Itoa(level), body), t)
  {
    hide Avoids, Elem;
    HeadingName(level);
    AvoidsSimple("h" + Itoa(level), body, t);
  }

  lemma PanelHasPanel(n: Node)
    requires n.kind == Panel
    ensures HasPanel(n)
  {
  }

  lemma AvoidsLeaf(n: Node, attrs: Attrs, t: string)
    requires Free(n, t) && !PrintsContent(n.kind)
    ensures Avoids(PrintAs(n, attrs), t)
  {
    hide Elem, EscapeString, CollectText;
    hide Avoids, PrintText, PrintMention, PrintStatus, PrintDate, PrintEmoji;
    match n.kind
    case Text => AvoidsPrintedText(n, t);
    case Mention => AvoidsMention(attrs, t);
    case Status => AvoidsStatus(attrs);
    case HardBreak => AvoidsBreak(t);
    case Rule => AvoidsBreak(t);
    case Date => AvoidsDate(attrs, t);
    case Emoji => AvoidsEmoji(attrs, t);
    case CodeBlock => AvoidsCode(n, t);
    case Media => AvoidsBreak(t);
  }

  lemma AvoidsPlainBlock(n: Node, attrs: Attrs, t: string)
    requires n.kind in {Paragraph, BulletList, OrderedList, ListItem, Blockquote, Table, TableRow, TableHeader, TableCell}
    requires (t == TITLE || t == BODY_END) && Avoids(PrintNodes(n.content), t)
    ensures Avoids(PrintAs(n, attrs), t)
  {
    hide Avoids, Elem, PlainName, PrintNodes;
    var body := PrintNodes(n.content);
    BlockNames();
    TableNames();
    match n.kind
    case Paragraph => AvoidsSimple("p", body, t);
    case BulletList => AvoidsSimple("ul", body, t);
    case OrderedList => AvoidsSimple("ol", body, t);
    case ListItem => AvoidsSimple("li", body, t);
    case Blockquote => AvoidsSimple("blockquote", body, t);
    case Table => AvoidsSimple("table", body, t);
    case TableRow => AvoidsSimple("tr", body, t);
    case TableHeader => AvoidsSimple("th", body, t);
    case TableCell => AvoidsSimple("td", body, t);
  }

  lemma {:induction false} AvoidsNodes(ns: seq<Node>, t: string)
    requires (t == TITLE || t == BODY_END) && forall c :: c in ns ==> Free(c, t)
    ensures Avoids(PrintNodes(ns), t)
    decreases ns, 1
  {
    hide Avoids, PrintAs, Free;
    if ns == [] {
      AvoidsText("", t);
    } else {
      AvoidsNode(ns[0], ns[0].attrs, t);
      AvoidsNodes(ns[1..], t);
      AvoidsConcat(PrintNode(ns[0]), PrintNodes(ns[1..]), t);
    }
  }

  lemma {:induction false} AvoidsItems(items: seq<Node>, place: nat, t: string)
    requires (t == TITLE || t == BODY_END) && forall c :: c in items ==> Free(c, t)
    ensures Avoids(PrintItems(items, place), t)
    decreases items, 1
  {
    hide Avoids, PrintAs, Free;
    if items == [] {
      AvoidsText("", t);
    } else {
      AvoidsNode(items[0], NamedAttrs(items[0], place), t);
      AvoidsItems(items[1..], place + 1, t);
      AvoidsConcat(PrintItem(items[0], place), PrintItems(items[1..], place + 1), t);
    }
  }
}
