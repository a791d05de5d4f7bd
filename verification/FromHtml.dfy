/** Reading storage markup back into a document. */
module HtmlReader {
  import opened Text
  import opened Escape
  import opened Adf
  import opened Calendar
  import opened Decimals
  import opened Storage
  import opened Markup
  import opened Closing

  // ---- what is read, as functions of the markup that is left ----

  /** The next top-level element: loose text comes back as an element without a name. */
  datatype Element =
    | NoElement
    | Element(name: string, tag: string, inner: string, used: nat)

  function ElementOf(s: string): (e: Element)
    ensures e.Element? ==> 0 < e.used <= |s| && |e.inner| < |s|
  {
    var open := IndexByte(s, '<');
    if open < 0 then NoElement
    else if open > 0 then Element("", "", s[..open], open)
    else
      var close := IndexByte(s, '>');
      if close < 0 then NoElement
      else TagElement(s, close)
  }

  function TagElement(s: string, close: nat): (e: Element)
    requires 0 < close < |s|
    ensures e.Element? && 0 < e.used <= |s| && |e.inner| < |s|
  {
    var tag := s[1..close];
    var name := TagName(tag);
    if "!" <= tag || name == "" then Element("", "", "", close + 1)
    else if SelfCloses(tag) then Element(name, tag, "", close + 1)
    else
      var end := ClosingIn(ToLower(s[close + 1..]), name, 0);
      if end < 0 then Element(name, tag, s[close + 1..], |s|)
      else Element(name, tag, s[close + 1..][..end], close + 1 + end + |name| + 3)
  }

  function UpToSpace(s: string): (r: string)
    ensures r <= s
  {
    if s == "" || s[0] in " \t\n" then "" else [s[0]] + UpToSpace(s[1..])
  }

  function TrimSlash(s: string): string {
    if SelfCloses(s) then s[..|s| - 1] else s
  }

  function TagName(tag: string): string {
    var t := TrimSpace(tag);
    if t == "" || Closes(t) then "" else ToLower(TrimSlash(UpToSpace(t)))
  }

  function AttributeValue(source: string, name: string): string {
    var at := Index(ToLower(source), name + "=\"");
    if at < 0 then ""
    else
      var rest := source[at + |name| + 2..];
      var end := IndexByte(rest, '"');
      if end < 0 then "" else UnescapeString(rest[..end])
  }

  function MacroParameter(inner: string, name: string): string {
    var open := "<" + Attr("ac:parameter", "ac:name", name) + ">";
    var at := Index(inner, open);
    if at < 0 then ""
    else
      var rest := inner[at + |open|..];
      var end := Index(rest, "</ac:parameter>");
      if end < 0 then "" else UnescapeString(TrimSpace(rest[..end]))
  }

  function MacroBody(inner: string, element: string): (body: string)
    ensures |body| <= |inner|
  {
    var open := "<" + element + ">";
    var at := Index(inner, open);
    if at < 0 then ""
    else
      var rest := inner[at + |open|..];
      var end := Index(rest, "</" + element + ">");
      if end < 0 then rest else rest[..end]
  }

  function TextNodes(source: string): seq<Node> {
    var text := UnescapeString(source);
    if TrimSpace(text) == "" then [] else [TextNode(text, [])]
  }

  /** The text markup shows, `depth` angle brackets deep. */
  function Stripped(s: string, depth: nat): string {
    if s == "" then ""
    else if s[0] == '<' then Stripped(s[1..], depth + 1)
    else if s[0] == '>' && depth > 0 then Stripped(s[1..], depth - 1)
    else if depth == 0 then [s[0]] + Stripped(s[1..], depth)
    else Stripped(s[1..], depth)
  }

  function MarkFor(name: string): Option<MarkKind> {
    if name == "strong" || name == "b" then Some(Strong)
    else if name == "em" || name == "i" then Some(Em)
    else if name == "code" then Some(Code)
    else if name == "s" || name == "del" then Some(Strike)
    else if name == "u" then Some(Underline)
    else None
  }

  function AddMark(nodes: seq<Node>, mark: Mark): (r: seq<Node>)
    ensures |r| == |nodes|
  {
    seq(|nodes|, i requires 0 <= i < |nodes| => nodes[i].(marks := nodes[i].marks + [mark]))
  }

  const LABEL := "ac:plain-text-link-body"

  /** What stands between the first of one marker and the next of another. */
  function Between(inner: string, open: string, close: string): Option<string> {
    var at := Index(inner, open);
    if at < 0 then None
    else
      var rest := inner[at + |open|..];
      var end := Index(rest, close);
      if end < 0 then None else Some(rest[..end])
  }

  /** The label of a link to an account, without the markers of a raw section. */
  function LinkLabel(inner: string): string {
    var text := Between(inner, "<" + LABEL + ">", "</" + LABEL + ">");
    if text.None? then "" else TrimCdata(TrimSpace(text.value))
  }

  function TrimCdata(text: string): string {
    var rest := if "<![CDATA[" <= text then text[9..] else text;
    if |rest| >= 3 && rest[|rest| - 3..] == "]]>" then rest[..|rest| - 3] else rest
  }

  function MentionNode(account: string, name: string): Node {
    Leaf(Mention, if name == "" then map["id" := Str(account)]
         else map["id" := Str(account), "text" := Str("@" + UnescapeString(name))])
  }

  function StatusNode(inner: string): Node {
    var colour := ToLower(MacroParameter(inner, "colour"));
    Leaf(Status, map["text" := Str(MacroParameter(inner, "title")),
                     "color" := Str(if StatusColour(colour) then colour else "grey")])
  }

  /** A date is kept as the moment its day begins with; what is no day of the calendar is dropped. */
  function DateNodes(day: Option<Civil>): seq<Node>
    requires day.Some? ==> Valid(day.value)
  {
    if day.Some? then [Leaf(Date, map["timestamp" := Str(IntText(Midnight(day.value)))])] else []
  }

  function InlineOf(s: string): seq<Node>
    decreases |s|, 0
  {
    if s == "" then []
    else
      var e := ElementOf(s);
      if e.NoElement? then TextNodes(s)
      else InlineElement(e.name, e.tag, e.inner) + InlineOf(s[e.used..])
  }

  function InlineElement(name: string, tag: string, inner: string): seq<Node>
    decreases |inner|, 1
  {
    if name == "" then TextNodes(inner)
    else if name == "br" then [Leaf(HardBreak, map[])]
    else if MarkFor(name).Some? then AddMark(InlineOf(inner), Mark(MarkFor(name).value, map[]))
    else if name == "a" then AddMark(InlineOf(inner), Mark(Link, map["href" := Str(AttributeValue(tag, "href"))]))
    else if name == "ac:link" then
      var account := AttributeValue(inner, "ri:account-id");
      if account == "" then InlineOf(inner) else [MentionNode(account, LinkLabel(inner))]
    else if name == "ac:structured-macro" then
      if ToLower(AttributeValue(tag, "ac:name")) != "status" then InlineOf(inner) else [StatusNode(inner)]
    else if name == "time" then
      DateNodes(ParseDay(AttributeValue(tag, "datetime")))
    else InlineOf(inner)
  }

  /** A paragraph of the loose text read so far, if it shows anything. */
  function Flush(loose: string): seq<Node> {
    var text := TrimSpace(loose);
    if text == "" then [] else [Block(Paragraph, map[], InlineOf(text))]
  }

  function BlocksOf(s: string, loose: string): seq<Node>
    decreases |loose| + |s|, 2, |s|
  {
    if s == "" then Flush(loose)
    else
      var e := ElementOf(s);
      if e.NoElement? then Flush(loose + s)
      else
        var block := BlockOf(e.name, e.tag, e.inner);
        if block.Some? then Flush(loose) + [block.value] + BlocksOf(s[e.used..], "")
        else BlocksOf(s[e.used..], loose + s[..e.used])
  }

  function PanelKindOf(macro: string): Option<string> {
    if PanelKind(macro) then Some(macro) else if macro == "panel" then Some("custom") else None
  }

  function PanelTitle(title: string): seq<Node> {
    if title == "" then [] else [Block(Paragraph, map[], [TextNode(title, [Mark(Strong, map[])])])]
  }

  function HeadingLevel(name: string): Option<nat> {
    if |name| == 2 && name[0] == 'h' && '1' <= name[1] <= '6' then Some((name[1] as int) - ('0' as int)) else None
  }

  function MacroOf(macro: string, inner: string): Option<Node>
    decreases |inner|, 3
  {
    match PanelKindOf(macro)
    case Some(kind) =>
      Some(Block(Panel, map["panelType" := Str(kind)],
                 PanelTitle(MacroParameter(inner, "title")) + BlocksOf(MacroBody(inner, "ac:rich-text-body"), "")))
    case None =>
      if macro == "code"
      then Some(Block(CodeBlock, map[], TextNodes(UnescapeString(Stripped(MacroBody(inner, "ac:plain-text-body"), 0)))))
      else None
  }

  function BlockOf(name: string, tag: string, inner: string): Option<Node>
    decreases |inner|, 4
  {
    if name == "ac:structured-macro" then
      MacroOf(ToLower(AttributeValue(tag, "ac:name")), inner)
    else if name == "p" then Some(Block(Paragraph, map[], InlineOf(inner)))
    else if HeadingLevel(name).Some? then
      Some(Block(Heading, map["level" := Num(HeadingLevel(name).value as real)], InlineOf(inner)))
    else if name == "ul" then Some(Block(BulletList, map[], ItemsOf(inner)))
    else if name == "ol" then Some(Block(OrderedList, map[], ItemsOf(inner)))
    else if name == "blockquote" then Some(Block(Blockquote, map[], BlocksOf(inner, "")))
    else if name == "pre" then Some(Block(CodeBlock, map[], TextNodes(UnescapeString(Stripped(inner, 0)))))
    else if name == "hr" then Some(Leaf(Rule, map[]))
    else if name == "ac:task-list" then Some(Block(TaskList, map["localId" := Str("")], TasksOf(inner)))
    else None
  }

  function ItemsOf(s: string): seq<Node>
    decreases |s|, 2
  {
    if s == "" then []
    else
      var e := ElementOf(s);
      if e.NoElement? then []
      else (if e.name == "li" then [ItemOf(BlocksOf(e.inner, ""))] else []) + ItemsOf(s[e.used..])
  }

  /** A list item holds at least a paragraph. */
  function ItemOf(content: seq<Node>): Node {
    Block(ListItem, map[], if content == [] then [Block(Paragraph, map[], [])] else content)
  }

  function TasksOf(s: string): seq<Node>
    decreases |s|, 2
  {
    if s == "" then []
    else
      var e := ElementOf(s);
      if e.NoElement? then []
      else (if e.name == "ac:task" then [TaskOf(e.inner, EMPTY_TASK)] else []) + TasksOf(s[e.used..])
  }

  const EMPTY_TASK := Block(TaskItem, map["localId" := Str(""), "state" := Str("TODO")], [])

  /** A task filled in from its fields, in the order they stand. */
  function TaskOf(s: string, item: Node): Node
    decreases |s|
  {
    if s == "" then item
    else
      var e := ElementOf(s);
      if e.NoElement? then item else TaskOf(s[e.used..], WithField(item, e.name, e.inner))
  }

  function WithField(item: Node, field: string, value: string): Node {
    if field == "ac:task-id" then item.(attrs := item.attrs["localId" := Str(UnescapeString(TrimSpace(value)))])
    else if field == "ac:task-status" then
      if TrimSpace(value) == "complete" then item.(attrs := item.attrs["state" := Str("DONE")]) else item
    else if field == "ac:task-body" then item.(content := InlineOf(value))
    else item
  }

  function FromHtml(source: string): Node {
    var content := BlocksOf(source, "");
    Block(Doc, map[], if content == [] then [Block(Paragraph, map[], [])] else content)
  }

  // ---- the parser: a position in the source and the last tag found ----

  method ParseHtml(source: string) returns (doc: Node)
    ensures doc == FromHtml(source)
  {
    var parser := new HtmlParser(source);
    var content := parser.Blocks();
    if content == [] {
      content := [Block(Paragraph, map[], [])];
    }
    doc := Block(Doc, map[], content);
  }

  class HtmlParser {
    const source: string
    var at: nat
    var tag: string

    constructor (source: string)
      ensures this.source == source && at == 0
    {
      this.source := source;
      at := 0;
      tag := "";
    }

    method NextElement() returns (name: string, inner: string, next: nat, ok: bool)
      requires at <= |source|
      modifies this`tag
      ensures var e := ElementOf(source[at..]);
              && ok == e.Element?
              && (ok ==> name == e.name && inner == e.inner && next == at + e.used)
              && (ok && name != "" ==> tag == e.tag)
    {
      hide TagName, ClosingIn, IndexByte;
      ghost var s := source[at..];
      var open := IndexByte(source[at..], '<');
      if open < 0 {
        return "", "", 0, false;
      }
      if open > 0 {
        return "", source[at..][..open], at + open, true;
      }
      var close := IndexByte(source[at..], '>');
      if close < 0 {
        return "", "", 0, false;
      }
      assert close > 0 && s[0] == '<';
      var found := source[at..][1..close];
      if "!" <= found {
        return "", "", at + close + 1, true;
      }
      name := TagName(found);
      if name == "" {
        return "", "", at + close + 1, true;
      }
      tag := found;
      if SelfCloses(found) {
        return name, "", at + close + 1, true;
      }
      var end := FindClosing(source, name, at + close + 1);
      assert source[at + close + 1..] == s[close + 1..];
      if end < 0 {
        return name, source[at + close + 1..], |source|, true;
      }
      inner := source[at + close + 1..][..end - (at + close + 1)];
      return name, inner, end + |name| + 3, true;
    }

    /** The block-level elements in order; loose text between them becomes paragraphs. */
    method Blocks() returns (nodes: seq<Node>)
      requires at == 0
      modifies this
      ensures nodes == BlocksOf(source, "")
      decreases |source|, 2
    {
      hide ElementOf, BlockOf, Flush, BlocksOf;
      nodes := [];
      var loose := "";
      assert source[0..] == source;
      while at < |source|
        invariant at <= |source| && |loose| <= at
        invariant nodes + BlocksOf(source[at..], loose) == BlocksOf(source, "")
        decreases |source| - at
      {
        BlocksRound(source[at..], loose);
        var name, inner, next, ok := NextElement();
        if !ok {
          loose := loose + source[at..];
          at := |source|;
          break;
        }
        ghost var e := ElementOf(source[at..]);
        var block := BlockNode(name, tag, inner);
        BlockNeedsName(tag, inner);
        BlockNeedsName(e.tag, inner);
        assert block == BlockOf(e.name, e.tag, e.inner);
        assert source[at..][e.used..] == source[next..];
        if block.Some? {
          var paragraph := FlushLoose(loose);
          ghost var rest := BlocksOf(source[next..], "");
          assert (nodes + paragraph + [block.value]) + rest == nodes + (paragraph + [block.value] + rest);
          nodes := nodes + paragraph + [block.value];
          loose := "";
        } else {
          loose := loose + source[at..][..next - at];
        }
        at := next;
      }
      assert source[|source|..] == "";
      BlocksRound("", loose);
      var last := FlushLoose(loose);
      nodes := nodes + last;
    }
  }

  lemma BlockNeedsName(tag: string, inner: string)
    ensures BlockOf("", tag, inner) == None
  {
  }

  /** One round of reading blocks. */
  lemma BlocksRound(s: string, loose: string)
    ensures BlocksOf(s, loose) ==
            if s == "" then Flush(loose)
            else
              var e := ElementOf(s);
              if e.NoElement? then Flush(loose + s)
              else
                var block := BlockOf(e.name, e.tag, e.inner);
                if block.Some? then Flush(loose) + [block.value] + BlocksOf(s[e.used..], "")
                else BlocksOf(s[e.used..], loose + s[..e.used])
  {
    hide ElementOf, BlockOf, Flush;
  }

  method FlushLoose(loose: string) returns (nodes: seq<Node>)
    ensures nodes == Flush(loose)
    decreases |loose|, 1
  {
    var text := TrimSpace(loose);
    if text == "" {
      return [];
    }
    var content := InlineNodes(text);
    nodes := [Block(Paragraph, map[], content)];
  }

  method StripTags(source: string) returns (text: string)
    ensures text == UnescapeString(Stripped(source, 0))
  {
    var out, depth: nat := "", 0;
    for i := 0 to |source|
      invariant out + Stripped(source[i..], depth) == Stripped(source, 0)
    {
      if source[i] == '<' {
        depth := depth + 1;
      } else if source[i] == '>' && depth > 0 {
        depth := depth - 1;
      } else if depth == 0 {
        out := out + [source[i]];
      }
    }
    assert source[|source|..] == "" && out + "" == out;
    text := UnescapeString(out);
  }

  method BlockNode(name: string, tag: string, inner: string) returns (block: Option<Node>)
    ensures block == BlockOf(name, tag, inner)
    decreases |inner|, 4
  {
    if name == "ac:structured-macro" {
      block := MacroNode(ToLower(AttributeValue(tag, "ac:name")), inner);
    } else if name == "p" {
      var content := InlineNodes(inner);
      block := Some(Block(Paragraph, map[], content));
    } else if HeadingLevel(name).Some? {
      var content := InlineNodes(inner);
      block := Some(Block(Heading, map["level" := Num(HeadingLevel(name).value as real)], content));
    } else if name == "ul" || name == "ol" {
      var content := ListItems(inner);
      block := Some(Block(if name == "ol" then OrderedList else BulletList, map[], content));
    } else if name == "blockquote" {
      var parser := new HtmlParser(inner);
      var content := parser.Blocks();
      block := Some(Block(Blockquote, map[], content));
    } else if name == "pre" {
      var text := StripTags(inner);
      block := Some(Block(CodeBlock, map[], TextNodes(text)));
    } else if name == "hr" {
      block := Some(Leaf(Rule, map[]));
    } else if name == "ac:task-list" {
      var content := TaskItems(inner);
      block := Some(Block(TaskList, map["localId" := Str("")], content));
    } else {
      block := None;
    }
  }

  method MacroNode(macro: string, inner: string) returns (block: Option<Node>)
    ensures block == MacroOf(macro, inner)
    decreases |inner|, 3
  {
    match PanelKindOf(macro)
    case Some(kind) =>
      var parser := new HtmlParser(MacroBody(inner, "ac:rich-text-body"));
      var body := parser.Blocks();
      var title := MacroParameter(inner, "title");
      assert [] + body == body;
      if title != "" {
        body := [Block(Paragraph, map[], [TextNode(title, [Mark(Strong, map[])])])] + body;
      }
      block := Some(Block(Panel, map["panelType" := Str(kind)], body));
    case None =>
      if macro == "code" {
        var text := StripTags(MacroBody(inner, "ac:plain-text-body"));
        return Some(Block(CodeBlock, map[], TextNodes(text)));
      }
      block := None;
  }

  lemma ItemsRound(s: string)
    ensures s == "" || ElementOf(s).NoElement? ==> ItemsOf(s) == []
    ensures s != "" && ElementOf(s).Element? ==>
              var e := ElementOf(s);
              ItemsOf(s) == if e.name == "li" then [ItemOf(BlocksOf(e.inner, ""))] + ItemsOf(s[e.used..]) else ItemsOf(s[e.used..])
  {
    hide ElementOf, BlocksOf;
  }

  method ListItems(inner: string) returns (items: seq<Node>)
    ensures items == ItemsOf(inner)
    decreases |inner|, 2
  {
    hide ElementOf, BlocksOf, ItemsOf;
    var parser := new HtmlParser(inner);
    items := [];
    assert inner[0..] == inner && [] + ItemsOf(inner) == ItemsOf(inner);
    while parser.at < |parser.source|
      invariant parser.source == inner && parser.at <= |inner| && fresh(parser)
      invariant items + ItemsOf(inner[parser.at..]) == ItemsOf(inner)
      decreases |inner| - parser.at
    {
      ghost var rest := inner[parser.at..];
      var name, body, next, ok := parser.NextElement();
      if !ok {
        break;
      }
      assert rest[next - parser.at..] == inner[next..];
      ItemsRound(rest);
      Assoc(items, [ItemOf(BlocksOf(body, ""))], ItemsOf(inner[next..]));
      parser.at := next;
      if name == "li" {
        var sub := new HtmlParser(body);
        var content := sub.Blocks();
        if content == [] {
          content := [Block(Paragraph, map[], [])];
        }
        items := items + [Block(ListItem, map[], content)];
      }
    }
    ItemsRound(inner[parser.at..]);
    assert items + [] == items;
  }

  lemma TasksRound(s: string)
    ensures s == "" || ElementOf(s).NoElement? ==> TasksOf(s) == []
    ensures s != "" && ElementOf(s).Element? ==>
              var e := ElementOf(s);
              TasksOf(s) == if e.name == "ac:task" then [TaskOf(e.inner, EMPTY_TASK)] + TasksOf(s[e.used..]) else TasksOf(s[e.used..])
  {
    hide ElementOf, TaskOf;
  }

  method TaskItems(inner: string) returns (items: seq<Node>)
    ensures items == TasksOf(inner)
    decreases |inner|, 2
  {
    hide ElementOf, TaskOf, TasksOf;
    var parser := new HtmlParser(inner);
    items := [];
    assert inner[0..] == inner && [] + TasksOf(inner) == TasksOf(inner);
    while parser.at < |parser.source|
      invariant parser.source == inner && parser.at <= |inner| && fresh(parser)
      invariant items + TasksOf(inner[parser.at..]) == TasksOf(inner)
      decreases |inner| - parser.at
    {
      ghost var rest := inner[parser.at..];
      var name, body, next, ok := parser.NextElement();
      if !ok {
        break;
      }
      assert rest[next - parser.at..] == inner[next..];
      TasksRound(rest);
      Assoc(items, [TaskOf(body, EMPTY_TASK)], TasksOf(inner[next..]));
      parser.at := next;
      if name == "ac:task" {
        var item := ReadTask(body);
        items := items + [item];
      }
    }
    TasksRound(inner[parser.at..]);
    assert items + [] == items;
  }

  method ReadTask(body: string) returns (item: Node)
    ensures item == TaskOf(body, EMPTY_TASK)
    decreases |body|, 2
  {
    hide ElementOf, InlineOf;
    item := Block(TaskItem, map["localId" := Str(""), "state" := Str("TODO")], []);
    var fields := new HtmlParser(body);
    while fields.at < |fields.source|
      invariant fields.source == body && fields.at <= |body| && fresh(fields)
      invariant TaskOf(body[fields.at..], item) == TaskOf(body, EMPTY_TASK)
      decreases |body| - fields.at
    {
      ghost var rest := body[fields.at..];
      ghost var before := item;
      var field, value, after, ok := fields.NextElement();
      if !ok {
        break;
      }
      assert rest[after - fields.at..] == body[after..];
      fields.at := after;
      if field == "ac:task-id" {
        item := item.(attrs := item.attrs["localId" := Str(UnescapeString(TrimSpace(value)))]);
      } else if field == "ac:task-status" {
        if TrimSpace(value) == "complete" {
          item := item.(attrs := item.attrs["state" := Str("DONE")]);
        }
      } else if field == "ac:task-body" {
        var content := InlineNodes(value);
        item := item.(content := content);
      }
      assert item == WithField(before, field, value);
    }
  }

  method InlineNodes(source: string) returns (nodes: seq<Node>)
    ensures nodes == InlineOf(source)
    decreases |source|, 0
  {
    hide ElementOf, InlineElement, TextNodes;
    nodes := [];
    var parser := new HtmlParser(source);
    while parser.at < |parser.source|
      invariant parser.source == source && parser.at <= |source| && fresh(parser)
      invariant nodes + InlineOf(source[parser.at..]) == InlineOf(source)
      decreases |source| - parser.at
    {
      ghost var rest := source[parser.at..];
      var name, inner, next, ok := parser.NextElement();
      if !ok {
        nodes := nodes + TextNodes(parser.source[parser.at..]);
        break;
      }
      ghost var e := ElementOf(rest);
      InlineRound(rest);
      assert rest[e.used..] == source[next..];
      parser.at := next;
      var more := InlineElementNodes(name, parser.tag, inner);
      InlineText(parser.tag, inner);
      InlineText(e.tag, inner);
      assert more == InlineElement(e.name, e.tag, e.inner);
      ghost var left := InlineOf(source[next..]);
      assert (nodes + more) + left == nodes + (more + left);
      nodes := nodes + more;
    }
  }

  lemma InlineRound(s: string)
    requires s != "" && ElementOf(s).Element?
    ensures var e := ElementOf(s);
            InlineOf(s) == InlineElement(e.name, e.tag, e.inner) + InlineOf(s[e.used..])
  {
    hide ElementOf, InlineElement;
  }

  lemma InlineText(tag: string, inner: string)
    ensures InlineElement("", tag, inner) == TextNodes(inner)
  {
  }

  /** What one inline element reads as: the body of the loop above. */
  method InlineElementNodes(name: string, tag: string, inner: string) returns (nodes: seq<Node>)
    ensures nodes == InlineElement(name, tag, inner)
    decreases |inner|, 1
  {
    hide InlineOf, AttributeValue, MacroParameter, LinkLabel;
    if name == "" {
      nodes := TextNodes(inner);
    } else if name == "br" {
      nodes := [Leaf(HardBreak, map[])];
    } else if MarkFor(name).Some? {
      var children := InlineNodes(inner);
      nodes := MarkAll(children, Mark(MarkFor(name).value, map[]));
    } else if name == "a" {
      var href := AttributeValue(tag, "href");
      var children := InlineNodes(inner);
      nodes := MarkAll(children, Mark(Link, map["href" := Str(href)]));
    } else if name == "ac:link" {
      var account := AttributeValue(inner, "ri:account-id");
      if account == "" {
        nodes := InlineNodes(inner);
      } else {
        nodes := [MentionNode(account, LinkLabel(inner))];
      }
    } else if name == "ac:structured-macro" {
      if ToLower(AttributeValue(tag, "ac:name")) != "status" {
        nodes := InlineNodes(inner);
      } else {
        nodes := [StatusNode(inner)];
      }
    } else if name == "time" {
      var day := ParseDay(AttributeValue(tag, "datetime"));
      if day.Some? {
        nodes := [Leaf(Date, map["timestamp" := Str(IntText(Midnight(day.value)))])];
      } else {
        nodes := [];
      }
    } else {
      nodes := InlineNodes(inner);
    }
  }

  method MarkAll(children: seq<Node>, mark: Mark) returns (nodes: seq<Node>)
    ensures nodes == AddMark(children, mark)
  {
    nodes := [];
    for i := 0 to |children|
      invariant |nodes| == i
      invariant forall j :: 0 <= j < i ==> nodes[j] == children[j].(marks := children[j].marks + [mark])
    {
      nodes := nodes + [children[i].(marks := children[i].marks + [mark])];
    }
  }
}
