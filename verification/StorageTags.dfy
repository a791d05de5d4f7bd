/** The tags of a document's storage markup, told from its structure: data adds none. */
module StorageTags {
  import opened Text
  import opened Escape
  import opened Adf
  import opened Calendar
  import opened Storage
  import opened Markup
  import opened StorageNested
  import opened Settle

  function Around(name: string, inner: seq<string>): seq<string> {
    [name] + inner + ["/" + name]
  }

  function Wrapped(active: bool, name: string, inner: seq<string>): seq<string> {
    if active then Around(name, inner) else inner
  }

  // ---- the tags, by kinds, marks and escaped attributes ----

  function MarkTags(marks: seq<Mark>): seq<string> {
    var link := LinkOf(marks);
    Wrapped(HasMark(marks, Em), "em",
            Wrapped(HasMark(marks, Strong), "strong",
                    Wrapped(HasMark(marks, Code), "code",
                            if link == "" then [] else [Attr("a", "href", EscapeString(link)), "/a"])))
  }

  function MentionTags(attrs: Attrs): seq<string> {
    Around("ac:link", [Attr("ri:user", "ri:account-id", EscapeString(StrAttr(attrs, "id"))) + " /"] +
                      if TrimAt(StrAttr(attrs, "text")) == "" then [] else Around("ac:plain-text-link-body", []))
  }

  function StatusTagList(): seq<string> {
    [MacroTag("status"), Attr("ac:parameter", "ac:name", "colour"), "/ac:parameter",
     Attr("ac:parameter", "ac:name", "title"), "/ac:parameter", "/ac:structured-macro"]
  }

  function DateTags(attrs: Attrs): seq<string> {
    match Moment(attrs)
    case None => []
    case Some(moment) => [Attr("time", "datetime", CivilText(DayAt(moment))) + " /"]
  }

  function TaskTags(body: seq<string>): seq<string> {
    Around("ac:task", Around("ac:task-id", []) + Around("ac:task-status", []) + Around("ac:task-body", body))
  }

  /** The element a node's content stands in, if it is one of plain tags. */
  function PlainElement(n: Node): string {
    match n.kind
    case Paragraph => "p"
    case Heading => "h" + Itoa(Level(n.attrs))
    case BulletList => "ul"
    case OrderedList => "ol"
    case ListItem => "li"
    case Blockquote => "blockquote"
    case Table => "table"
    case TableRow => "tr"
    case TableHeader => "th"
    case TableCell => "td"
    case _ => ""
  }

  /** The macro that a panel is drawn by: one for each kind that is told apart, and one for the rest. */
  function PanelName(attrs: Attrs): string {
    if SettledKind(attrs) == "custom" then "panel" else SettledKind(attrs)
  }

  function NodeTags(n: Node): seq<string>
    decreases n, 0
  {
    match n.kind
    case CodeBlock => Around("pre", Around("code", []))
    case Panel => [MacroTag(PanelName(n.attrs))] + Around("ac:rich-text-body", NodesTags(n.content)) + ["/ac:structured-macro"]
    case Status => StatusTagList()
    case HardBreak => ["br/"]
    case Rule => ["hr/"]
    case Mention => MentionTags(n.attrs)
    case TaskList => Around("ac:task-list", NodesTags(n.content))
    case TaskItem => TaskTags(NodesTags(n.content))
    case Date => DateTags(n.attrs)
    case Emoji => []
    case Media => []
    case Text => MarkTags(n.marks)
    case Doc => NodesTags(n.content)
    case Unknown(_) => NodesTags(n.content)
    case _ => Around(PlainElement(n), NodesTags(n.content))
  }

  function NodesTags(ns: seq<Node>): seq<string>
    decreases ns, 1
  {
    if ns == [] then [] else NodeTags(ns[0]) + NodesTags(ns[1..])
  }

  // ---- what is printed has them ----

  predicate Shows(s: string, tags: seq<string>) {
    WellNested(s) && Tags(s) == tags
  }

  lemma ShowsText(s: string)
    requires '<' !in s
    ensures Shows(s, [])
  {
    NestedText(s);
  }

  lemma ShowsConcat(a: string, x: seq<string>, b: string, y: seq<string>)
    requires Shows(a, x) && Shows(b, y)
    ensures Shows(a + b, x + y)
  {
    hide WellNested, Tags;
    NestedConcat(a, b);
  }

  lemma ShowsElem(name: string, body: string, tags: seq<string>)
    requires PlainName(name) && Shows(body, tags)
    ensures Shows(Elem(name, name, body), Around(name, tags))
  {
    hide WellNested, Tags, Elem, PlainName;
    NestedSimple(name, body);
  }

  lemma ShowsWrap(active: bool, name: string, body: string, tags: seq<string>)
    requires PlainName(name) && Shows(body, tags)
    ensures Shows(Wrap(active, name, body), Wrapped(active, name, tags))
  {
    hide Shows, Elem, PlainName, Around;
    if active { ShowsElem(name, body, tags); }
  }

  lemma ShowsLink(link: string, text: string)
    requires '<' !in text
    ensures Shows(PrintLink(link, text), if link == "" then [] else [Attr("a", "href", EscapeString(link)), "/a"])
  {
    hide WellNested, Tags, Elem, Attr;
    EscapeIsInert(link);
    InlineNames();
    NestedText(text);
    Attributed("a", "href", EscapeString(link), text);
    assert "/" + "a" == "/a";
  }

  lemma ShowsMarks(n: Node)
    ensures Shows(PrintText(n), MarkTags(n.marks))
  {
    hide Shows, Wrap, PrintLink, HasMark, LinkOf, Wrapped, PlainName, Attr;
    InlineNames();
    EscapeIsInert(n.text);
    var link, code, strong, em := LinkOf(n.marks), HasMark(n.marks, Code), HasMark(n.marks, Strong), HasMark(n.marks, Em);
    var t0 := if link == "" then [] else [Attr("a", "href", EscapeString(link)), "/a"];
    var s0 := PrintLink(link, EscapeString(n.text));
    ShowsLink(link, EscapeString(n.text));
    hide EscapeString;
    var s1, t1 := Wrap(code, "code", s0), Wrapped(code, "code", t0);
    ShowsWrap(code, "code", s0, t0);
    ShowsWrap(strong, "strong", s1, t1);
    ShowsWrap(em, "em", Wrap(strong, "strong", s1), Wrapped(strong, "strong", t1));
  }

  lemma ShowsMention(attrs: Attrs)
    ensures Shows(PrintMention(attrs), MentionTags(attrs))
  {
    hide WellNested, Tags, Elem, Attr, Around, PlainName;
    LinkNames();
    var id, name := StrAttr(attrs, "id"), TrimAt(StrAttr(attrs, "text"));
    EscapeIsInert(id);
    EscapeIsInert(name);
    var user := "<" + (Attr("ri:user", "ri:account-id", EscapeString(id)) + " /") + ">";
    EmptyAttributed("ri:user", "ri:account-id", EscapeString(id));
    ShowsText("");
    ShowsText(EscapeString(name));
    hide EscapeString, Shows;
    var caption := "ac:plain-text-link-body";
    ShowsElem(caption, EscapeString(name), []);
    var shown := if name == "" then "" else Elem(caption, caption, EscapeString(name));
    var tags := if name == "" then [] else Around(caption, []);
    ShownUser(user, Attr("ri:user", "ri:account-id", EscapeString(id)) + " /");
    ShowsConcat(user, [Attr("ri:user", "ri:account-id", EscapeString(id)) + " /"], shown, tags);
    ShowsElem("ac:link", user + shown, [Attr("ri:user", "ri:account-id", EscapeString(id)) + " /"] + tags);
  }

  lemma ShownUser(s: string, tag: string)
    requires WellNested(s) && Tags(s) == [tag]
    ensures Shows(s, [tag])
  {
  }

  lemma ShowsStatus(attrs: Attrs)
    ensures Shows(PrintStatus(attrs), StatusTagList())
  {
    hide WellNested, Tags, PrintStatus, Attr;
    StatusNested(attrs);
  }

  lemma ShowsDate(attrs: Attrs)
    ensures Shows(PrintDate(attrs), DateTags(attrs))
  {
    hide WellNested, Tags, Attr, CivilText, DayAt, Moment;
    InlineNames();
    NestedText("");
    if Moment(attrs).Some? {
      var day := DayAt(Moment(attrs).value);
      DayInert(day);
      EmptyAttributed("time", "datetime", CivilText(day));
    }
  }

  lemma ShowsEmoji(attrs: Attrs)
    ensures Shows(PrintEmoji(attrs), [])
  {
    hide Shows;
    EscapeIsInert(StrAttr(attrs, "text"));
    EscapeIsInert(StrAttr(attrs, "shortcode"));
    ShowsText(PrintEmoji(attrs));
  }

  lemma ShowsVoid(name: string)
    requires name == "br" || name == "hr"
    ensures Shows("<" + name + "/>", [name + "/"])
  {
    hide WellNested, Tags;
    NameOfIs(name, "/");
    LowerId(name + "/");
    NestedEmpty(name + "/");
    assert "<" + (name + "/") + ">" == "<" + name + "/>";
  }

  lemma ShowsVoids()
    ensures Shows("<br/>", ["br/"]) && Shows("<hr/>", ["hr/"])
  {
    hide Shows;
    ShowsVoid("br");
    ShowsVoid("hr");
    assert "<" + "br" + "/>" == "<br/>" && "br" + "/" == "br/";
    assert "<" + "hr" + "/>" == "<hr/>" && "hr" + "/" == "hr/";
  }

  lemma ShowsCode(n: Node)
    ensures Shows(Elem("pre", "pre", Elem("code", "code", EscapeString(CollectText(n)))), Around("pre", Around("code", [])))
  {
    hide Shows, Elem, Around, PlainName, EscapeString;
    BlockNames();
    InlineNames();
    EscapeIsInert(CollectText(n));
    ShowsText(EscapeString(CollectText(n)));
    ShowsElem("code", EscapeString(CollectText(n)), []);
    ShowsElem("pre", Elem("code", "code", EscapeString(CollectText(n))), Around("code", []));
  }

  lemma ShowsTask(attrs: Attrs, body: string, tags: seq<string>)
    requires Shows(body, tags)
    ensures Shows(Elem("ac:task", "ac:task", TaskFields(attrs) + Elem("ac:task-body", "ac:task-body", body)), TaskTags(tags))
  {
    hide Shows, Elem, Around, PlainName;
    TaskNames();
    var id, state := EscapeString(StrAttr(attrs, "localId")), TaskState(attrs);
    EscapeIsInert(StrAttr(attrs, "localId"));
    hide EscapeString;
    ShowsText(id);
    ShowsText(state);
    ShowsElem("ac:task-id", id, []);
    ShowsElem("ac:task-status", state, []);
    ShowsElem("ac:task-body", body, tags);
    ShowsConcat(Elem("ac:task-id", "ac:task-id", id), Around("ac:task-id", []),
                Elem("ac:task-status", "ac:task-status", state), Around("ac:task-status", []));
    var fields := Around("ac:task-id", []) + Around("ac:task-status", []);
    ShowsConcat(TaskFields(attrs), fields, Elem("ac:task-body", "ac:task-body", body), Around("ac:task-body", tags));
    ShowsElem("ac:task", TaskFields(attrs) + Elem("ac:task-body", "ac:task-body", body), fields + Around("ac:task-body", tags));
  }

  lemma PanelNameIs(attrs: Attrs)
    ensures PanelMacro(attrs) == PanelName(attrs)
  {
    hide ToLower, TrimSpace;
  }

  lemma ShowsPanel(attrs: Attrs, body: string, tags: seq<string>)
    requires Shows(body, tags)
    ensures Shows(Macro(PanelMacro(attrs), Elem("ac:rich-text-body", "ac:rich-text-body", body)),
                  [MacroTag(PanelName(attrs))] + Around("ac:rich-text-body", tags) + ["/ac:structured-macro"])
  {
    PanelNameIs(attrs);
    hide WellNested, Tags, Elem, Macro, PlainName, PanelMacro, PanelName, MacroTag, Around;
    MacroNames();
    MacroIsName(attrs);
    ShowsElem("ac:rich-text-body", body, tags);
    MacroNested(PanelMacro(attrs), Elem("ac:rich-text-body", "ac:rich-text-body", body));
  }

  lemma ShowsPlain(n: Node, tags: seq<string>)
    requires PlainElement(n) != "" && Shows(PrintNodes(n.content), tags)
    ensures Shows(PrintAs(n, n.attrs), Around(PlainElement(n), tags))
  {
    hide Shows, Elem, PlainName, PrintNodes, Around;
    BlockNames();
    TableNames();
    HeadingName(Level(n.attrs));
    ShowsElem(PlainElement(n), PrintNodes(n.content), tags);
  }

  /** A task's attributes name no tag, so it may be given an id. */
  lemma ShowsNamed(item: Node, place: nat, tags: seq<string>)
    requires item.kind == TaskItem && Shows(PrintNodes(item.content), tags)
    ensures Shows(PrintItem(item, place), TaskTags(tags))
  {
    hide Shows, TaskTags, PrintNodes, TaskFields, Elem;
    ShowsTask(NamedAttrs(item, place), PrintNodes(item.content), tags);
  }

  lemma {:induction false} NodeShows(n: Node)
    ensures Shows(PrintAs(n, n.attrs), NodeTags(n))
    decreases n, 0
  {
    hide Shows, Elem, Macro, PrintText, PrintMention, PrintStatus, PrintDate, PrintEmoji, TaskFields, PlainName, Around,
         MarkTags, MentionTags, StatusTagList, DateTags, TaskTags;
    NodesShow(n.content);
    match n.kind
    case CodeBlock => ShowsCode(n);
    case Panel => ShowsPanel(n.attrs, PrintNodes(n.content), NodesTags(n.content));
    case Status => ShowsStatus(n.attrs);
    case HardBreak => ShowsVoids();
    case Rule => ShowsVoids();
    case Mention => ShowsMention(n.attrs);
    case TaskList =>
      ItemsShow(n.content, 0);
      TaskNames();
      ShowsElem("ac:task-list", PrintItems(n.content, 0), NodesTags(n.content));
    case TaskItem => ShowsTask(n.attrs, PrintNodes(n.content), NodesTags(n.content));
    case Date => ShowsDate(n.attrs);
    case Emoji => ShowsEmoji(n.attrs);
    case Media => ShowsText("[attachment]");
    case Text => ShowsMarks(n);
    case Doc =>
    case Unknown(_) =>
    case _ => ShowsPlain(n, NodesTags(n.content));
  }

  lemma {:induction false} NodesShow(ns: seq<Node>)
    ensures Shows(PrintNodes(ns), NodesTags(ns))
    decreases ns, 1
  {
    hide Shows, PrintAs, NodeTags;
    if ns == [] {
      ShowsText("");
    } else {
      NodeShows(ns[0]);
      NodesShow(ns[1..]);
      ShowsConcat(PrintNode(ns[0]), NodeTags(ns[0]), PrintNodes(ns[1..]), NodesTags(ns[1..]));
    }
  }

  lemma {:induction false} ItemsShow(items: seq<Node>, place: nat)
    ensures Shows(PrintItems(items, place), NodesTags(items))
    decreases items, 1
  {
    hide Shows, PrintAs, NodeTags, PrintItem;
    if items == [] {
      ShowsText("");
    } else {
      ItemShows(items[0], place);
      ItemsShow(items[1..], place + 1);
      ShowsConcat(PrintItem(items[0], place), NodeTags(items[0]), PrintItems(items[1..], place + 1), NodesTags(items[1..]));
    }
  }

  lemma {:induction false} ItemShows(item: Node, place: nat)
    ensures Shows(PrintItem(item, place), NodeTags(item))
    decreases item, 2
  {
    hide Shows, PrintAs, NodesTags;
    if item.kind == TaskItem {
      NodesShow(item.content);
      hide PrintItem;
      ShowsNamed(item, place, NodesTags(item.content));
    } else {
      NodeShows(item);
    }
  }

  lemma NodesNested(ns: seq<Node>)
    ensures WellNested(PrintNodes(ns))
  {
    hide WellNested, Tags, PrintNodes, NodesTags;
    NodesShow(ns);
  }

  lemma ItemsNested(items: seq<Node>, place: nat)
    ensures WellNested(PrintItems(items, place))
  {
    hide WellNested, Tags, PrintItems, NodesTags;
    ItemsShow(items, place);
  }

  /** Whatever a document holds, its storage markup is a well-nested run of tags. */
  lemma StorageIsWellNested(doc: Node)
    ensures WellNested(ToStorage(doc))
  {
    NodesNested(doc.content);
  }

  /** The tags of a document's storage markup are those of its structure, whatever its data holds. */
  lemma TagsOfStorage(doc: Node)
    ensures WellNested(ToStorage(doc)) && Tags(ToStorage(doc)) == NodesTags(doc.content)
  {
    NodesShow(doc.content);
  }

  // ---- text adds no tag ----

  /** A node with all text in it left out. */
  function Silent(n: Node): Node
    decreases n, 0
  {
    n.(text := "", content := SilentAll(n.content))
  }

  function SilentAll(ns: seq<Node>): seq<Node>
    decreases ns, 1
  {
    if ns == [] then [] else [Silent(ns[0])] + SilentAll(ns[1..])
  }

  lemma {:induction false} SilentTags(n: Node)
    ensures NodeTags(Silent(n)) == NodeTags(n)
    decreases n, 0
  {
    hide Around, MarkTags, MentionTags, StatusTagList, DateTags, TaskTags;
    SilentAllTags(n.content);
  }

  lemma {:induction false} SilentAllTags(ns: seq<Node>)
    ensures NodesTags(SilentAll(ns)) == NodesTags(ns)
    decreases ns, 1
  {
    hide NodeTags, Silent;
    if ns != [] {
      SilentTags(ns[0]);
      SilentAllTags(ns[1..]);
      assert ([Silent(ns[0])] + SilentAll(ns[1..]))[1..] == SilentAll(ns[1..]);
    }
  }

  /** Leaving out all text leaves the tags as they are: text opens and closes no element. */
  lemma TextAddsNoTag(doc: Node)
    ensures WellNested(ToStorage(doc)) && WellNested(ToStorage(Silent(doc)))
    ensures Tags(ToStorage(Silent(doc))) == Tags(ToStorage(doc))
  {
    hide WellNested, Tags, ToStorage, NodesTags;
    TagsOfStorage(doc);
    TagsOfStorage(Silent(doc));
    SilentAllTags(doc.content);
  }
}
