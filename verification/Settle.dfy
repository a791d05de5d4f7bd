/**
 * What a document becomes when its storage markup is read back, told from the document alone,
 * and which documents come back unchanged.
 */
module Settle {
  import opened Text
  import opened Escape
  import opened Adf
  import opened Calendar
  import opened Decimals
  import opened Storage
  import opened HtmlReader

  // ---- the documents spoken of: blocks of blocks, ending in inline content ----

  predicate InlineKind(kind: Kind) {
    kind in {Kind.Text, Mention, Status, HardBreak, Date, Emoji, Media}
  }

  predicate AllInline(ns: seq<Node>) {
    forall n :: n in ns ==> InlineKind(n.kind)
  }

  /** Kinds whose children are printed between their tags. */
  predicate PrintsContent(kind: Kind) {
    !InlineKind(kind) && kind != Rule && kind != CodeBlock
  }

  /** A panel is printed for the node or inside it. */
  predicate HasPanel(n: Node) {
    n.kind == Panel || (PrintsContent(n.kind) && exists c :: c in n.content && HasPanel(c))
  }

  predicate BlockShape(n: Node) {
    match n.kind
    case Paragraph => AllInline(n.content)
    case Heading => AllInline(n.content)
    case BulletList => forall c :: c in n.content ==> c.kind == ListItem && ListShape(c)
    case OrderedList => forall c :: c in n.content ==> c.kind == ListItem && ListShape(c)
    case Blockquote => forall c :: c in n.content ==> BlockShape(c)
    case Panel => forall c :: c in n.content ==> BlockShape(c)
    case CodeBlock => true
    case TaskList => forall c :: c in n.content ==> c.kind == TaskItem && AllInline(c.content)
    case Rule => true
    case _ => false
  }

  predicate ListShape(item: Node) {
    forall c :: c in item.content ==> BlockShape(c)
  }

  /** Paragraphs, headings, lists, quotes, panels, code blocks, task lists and rules. */
  predicate Shape(doc: Node) {
    forall c :: c in doc.content ==> BlockShape(c)
  }

  // ---- what comes back ----

  /** The marks storage writes, inner ones first. */
  function MarksInOrder(link: string, code: bool, strong: bool, em: bool): seq<Mark> {
    (if link == "" then [] else [Mark(Link, map["href" := Str(link)])]) +
    (if code then [Mark(Code, map[])] else []) +
    (if strong then [Mark(Strong, map[])] else []) +
    (if em then [Mark(Em, map[])] else [])
  }

  /** Marks as the parser gives them back: in order, and none that storage does not write. */
  function SettleMarks(marks: seq<Mark>): seq<Mark> {
    MarksInOrder(LinkOf(marks), HasMark(marks, Code), HasMark(marks, Strong), HasMark(marks, Em))
  }

  /** The plain characters a node adds to the run of text around it, if that is all it does. */
  function PlainRun(n: Node): Option<string> {
    match n.kind
    case Text => if SettleMarks(n.marks) == [] then Some(n.text) else None
    case Emoji => Some(EmojiText(n.attrs))
    case Media => Some("[attachment]")
    case Date => if Moment(n.attrs).Some? then None else Some("")
    case _ => None
  }

  function TextOf(run: string): seq<Node> {
    if Blank(run) then [] else [TextNode(run, [])]
  }

  function SettleMention(attrs: Attrs): seq<Node> {
    var id, name := StrAttr(attrs, "id"), TrimAt(StrAttr(attrs, "text"));
    if id == "" then TextOf(name)
    else if TrimSpace(name) == "" then [Leaf(Mention, map["id" := Str(id)])]
    else [Leaf(Mention, map["id" := Str(id), "text" := Str("@" + TrimSpace(name))])]
  }

  function SettleStatus(attrs: Attrs): Node {
    Leaf(Status, map["text" := Str(TrimSpace(StrAttr(attrs, "text"))), "color" := Str(PanelStatusColour(attrs))])
  }

  /** A date comes back as the beginning of its day, and not at all before the year 0 or after 9999. */
  function SettleDate(attrs: Attrs): seq<Node> {
    match Moment(attrs)
    case None => []
    case Some(moment) =>
      var day := DayAt(moment);
      if FourDigitYear(day.year) then [Leaf(Date, map["timestamp" := Str(IntText(Midnight(day)))])] else []
  }

  function SettleLeaf(n: Node): seq<Node> {
    match n.kind
    case Text => if Blank(n.text) then [] else [TextNode(n.text, SettleMarks(n.marks))]
    case Mention => SettleMention(n.attrs)
    case Status => [SettleStatus(n.attrs)]
    case HardBreak => [Leaf(HardBreak, map[])]
    case Date => SettleDate(n.attrs)
    case _ => []
  }

  /** Inline content after a run of plain characters: runs join, and blank runs vanish. */
  function SettleInline(run: string, ns: seq<Node>): seq<Node>
    decreases |ns|
  {
    if ns == [] then TextOf(run)
    else if PlainRun(ns[0]).Some? then SettleInline(run + PlainRun(ns[0]).value, ns[1..])
    else TextOf(run) + SettleLeaf(ns[0]) + SettleInline("", ns[1..])
  }

  // ---- what a panel keeps of its content ----

  function Size(n: Node): (size: nat)
    ensures size == 1 + SizeAll(n.content)
    decreases n, 0
  {
    1 + SizeAll(n.content)
  }

  function SizeAll(ns: seq<Node>): (size: nat)
    ensures ns != [] ==> size == Size(ns[0]) + SizeAll(ns[1..])
    decreases ns, 1
  {
    if ns == [] then 0 else Size(ns[0]) + SizeAll(ns[1..])
  }

  /** A node up to the end of what its first panel, or the first one in that, keeps. */
  function CutNode(n: Node): (r: Node)
    ensures r.kind == n.kind && r.attrs == n.attrs && Size(r) <= Size(n)
    decreases n, 0
  {
    n.(content := CutNodes(n.content))
  }

  /** Nodes up to the first panel among them or inside them: nothing behind it is kept. */
  function CutNodes(ns: seq<Node>): (r: seq<Node>)
    ensures SizeAll(r) <= SizeAll(ns) && |r| <= |ns|
    decreases ns, 1
  {
    if ns == [] then []
    else if HasPanel(ns[0]) then [CutNode(ns[0])]
    else [ns[0]] + CutNodes(ns[1..])
  }

  /** The text of the first status in the order of the document. */
  function StatusIn(n: Node): Option<string>
    decreases n, 0
  {
    if n.kind == Status then Some(StrAttr(n.attrs, "text"))
    else if PrintsContent(n.kind) then FirstStatus(n.content)
    else None
  }

  function FirstStatus(ns: seq<Node>): Option<string>
    decreases ns, 1
  {
    if ns == [] then None
    else if StatusIn(ns[0]).Some? then StatusIn(ns[0])
    else FirstStatus(ns[1..])
  }

  /** The title a panel is given when it is read back: its first status is taken for one. */
  function StolenTitle(ns: seq<Node>): string {
    match FirstStatus(ns)
    case None => ""
    case Some(text) => TrimSpace(text)
  }

  /** The kinds of panels that are told apart, by the words that name them. */
  const PANEL_KINDS: map<string, string> :=
    map["info" := "info", "note" := "note", "warning" := "warning", "tip" := "tip", "error" := "warning", "success" := "tip"]

  /** Errors come back as warnings, successes as tips, and what has no name of its own as custom. */
  function SettledKind(attrs: Attrs): string {
    var word := ToLower(TrimSpace(StrAttr(attrs, "panelType")));
    if word in PANEL_KINDS then PANEL_KINDS[word] else "custom"
  }

  /** A panel gets its title from all it holds, and keeps what stands up to the first panel inside it. */
  function SettleBlock(n: Node): Node
    decreases Size(n), 0
  {
    match n.kind
    case Heading => Block(Heading, map["level" := Num(Level(n.attrs) as real)], SettleInline("", n.content))
    case BulletList => Block(BulletList, map[], SettleItems(n.content))
    case OrderedList => Block(OrderedList, map[], SettleItems(n.content))
    case Blockquote => Block(Blockquote, map[], SettleBlocks(n.content))
    case Panel =>
      Block(Panel, map["panelType" := Str(SettledKind(n.attrs))],
            PanelTitle(StolenTitle(n.content)) + SettleBlocks(CutNodes(n.content)))
    case CodeBlock => Block(CodeBlock, map[], TextOf(UnescapeString(CollectText(n))))
    case TaskList => Block(TaskList, map["localId" := Str("")], SettleTasks(n.content, 0))
    case Rule => Leaf(Rule, map[])
    case _ => Block(Paragraph, map[], SettleInline("", n.content))
  }

  function SettleBlocks(ns: seq<Node>): (r: seq<Node>)
    ensures |r| == |ns|
    decreases SizeAll(ns), 1
  {
    if ns == [] then [] else [SettleBlock(ns[0])] + SettleBlocks(ns[1..])
  }

  function SettleItems(ns: seq<Node>): (r: seq<Node>)
    ensures |r| == |ns|
    decreases SizeAll(ns), 1
  {
    if ns == [] then [] else [ItemOf(SettleBlocks(ns[0].content))] + SettleItems(ns[1..])
  }

  function SettleTask(item: Node, place: nat): Node {
    Block(TaskItem,
          map["localId" := Str(TrimSpace(StrAttr(NamedAttrs(item, place), "localId"))),
              "state" := Str(if TaskState(item.attrs) == "complete" then "DONE" else "TODO")],
          SettleInline("", item.content))
  }

  function SettleTasks(items: seq<Node>, place: nat): (r: seq<Node>)
    ensures |r| == |items|
  {
    if items == [] then [] else [SettleTask(items[0], place)] + SettleTasks(items[1..], place + 1)
  }

  function Settled(doc: Node): Node {
    Block(Doc, map[], if doc.content == [] then [Block(Paragraph, map[], [])] else SettleBlocks(doc.content))
  }
}
