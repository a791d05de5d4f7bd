/** What reading gives, whatever the markup: only documents of the blocks that are modelled. */
module ReadShape {
  import opened Text
  import opened Adf
  import opened Escape
  import opened Calendar
  import opened Storage
  import opened HtmlReader
  import opened Settle

  // ---- inline content ----

  lemma InlineJoins(a: seq<Node>, b: seq<Node>)
    requires AllInline(a) && AllInline(b)
    ensures AllInline(a + b)
  {
    hide InlineKind;
  }

  lemma MarksKeepInline(nodes: seq<Node>, mark: Mark)
    requires AllInline(nodes)
    ensures AllInline(AddMark(nodes, mark))
  {
    hide InlineKind;
    forall n | n in AddMark(nodes, mark) ensures InlineKind(n.kind) {
      var i :| 0 <= i < |nodes| && n == AddMark(nodes, mark)[i];
      assert nodes[i] in nodes;
    }
  }

  lemma {:induction false} InlineIsInline(s: string)
    ensures AllInline(InlineOf(s))
    decreases |s|, 0
  {
    if s != "" && ElementOf(s).Element? {
      var e := ElementOf(s);
      InlineRound(s);
      hide ElementOf, InlineElement, InlineOf, AllInline;
      ElementIsInline(e.name, e.tag, e.inner);
      InlineIsInline(s[e.used..]);
      InlineJoins(InlineElement(e.name, e.tag, e.inner), InlineOf(s[e.used..]));
    }
  }

  lemma {:induction false} ElementIsInline(name: string, tag: string, inner: string)
    ensures AllInline(InlineElement(name, tag, inner))
    decreases |inner|, 1
  {
    hide InlineOf, AttributeValue, MacroParameter, LinkLabel, ParseDay, TrimSpace, AddMark;
    InlineIsInline(inner);
    if MarkFor(name).Some? { MarksKeepInline(InlineOf(inner), Mark(MarkFor(name).value, map[])); }
    MarksKeepInline(InlineOf(inner), Mark(Link, map["href" := Str(AttributeValue(tag, "href"))]));
  }

  // ---- blocks ----

  predicate AllBlocks(ns: seq<Node>) {
    forall n :: n in ns ==> BlockShape(n)
  }

  lemma BlocksJoin(a: seq<Node>, b: seq<Node>)
    requires AllBlocks(a) && AllBlocks(b)
    ensures AllBlocks(a + b)
  {
    hide BlockShape;
  }

  lemma ParagraphShape(content: seq<Node>)
    requires AllInline(content)
    ensures BlockShape(Block(Paragraph, map[], content)) && AllBlocks([Block(Paragraph, map[], content)])
  {
    hide AllInline;
  }

  lemma FlushIsBlocks(loose: string)
    ensures AllBlocks(Flush(loose))
  {
    hide AllBlocks, InlineOf, TrimSpace;
    NoBlocks();
    InlineIsInline(TrimSpace(loose));
    ParagraphShape(InlineOf(TrimSpace(loose)));
  }

  lemma NoBlocks()
    ensures AllBlocks([])
  {
  }

  lemma {:induction false} BlocksAreBlocks(s: string, loose: string)
    ensures AllBlocks(BlocksOf(s, loose))
    decreases |loose| + |s|, 2, |s|
  {
    hide ElementOf, BlockOf, BlocksOf, Flush, AllBlocks, BlockShape;
    BlocksRound(s, loose);
    FlushIsBlocks(loose);
    if s != "" {
      FlushIsBlocks(loose + s);
      var e := ElementOf(s);
      if e.Element? {
        var block := BlockOf(e.name, e.tag, e.inner);
        if block.Some? {
          BlockIsBlock(e.name, e.tag, e.inner);
          OneBlock(block.value);
          BlocksAreBlocks(s[e.used..], "");
          BlocksJoin(Flush(loose), [block.value]);
          BlocksJoin(Flush(loose) + [block.value], BlocksOf(s[e.used..], ""));
        } else {
          BlocksAreBlocks(s[e.used..], loose + s[..e.used]);
        }
      }
    }
  }

  lemma OneBlock(n: Node)
    requires BlockShape(n)
    ensures AllBlocks([n])
  {
    hide BlockShape;
  }

  lemma TitleIsBlocks(title: string)
    ensures AllBlocks(PanelTitle(title))
  {
    hide AllBlocks;
    NoBlocks();
    ParagraphShape([TextNode(title, [Mark(Strong, map[])])]);
  }

  lemma {:induction false} BlockIsBlock(name: string, tag: string, inner: string)
    requires BlockOf(name, tag, inner).Some?
    ensures BlockShape(BlockOf(name, tag, inner).value)
    decreases |inner|, 4
  {
    hide InlineOf, BlocksOf, ItemsOf, TasksOf, MacroOf, HeadingLevel, Stripped, AttributeValue, TextNodes, UnescapeString;
    if name == "ac:structured-macro" {
      MacroIsBlock(ToLower(AttributeValue(tag, "ac:name")), inner);
    } else {
      InlineIsInline(inner);
      ItemsAreItems(inner);
      TasksAreTasks(inner);
      BlocksAreBlocks(inner, "");
    }
  }

  lemma {:induction false} MacroIsBlock(macro: string, inner: string)
    requires MacroOf(macro, inner).Some?
    ensures BlockShape(MacroOf(macro, inner).value)
    decreases |inner|, 3
  {
    hide BlocksOf, MacroParameter, MacroBody, Stripped, TextNodes, UnescapeString, PanelTitle, AllBlocks;
    var title, body := PanelTitle(MacroParameter(inner, "title")), MacroBody(inner, "ac:rich-text-body");
    BlocksAreBlocks(body, "");
    TitleIsBlocks(MacroParameter(inner, "title"));
    BlocksJoin(title, BlocksOf(body, ""));
    PanelShape(title + BlocksOf(body, ""));
  }

  lemma PanelShape(content: seq<Node>)
    requires AllBlocks(content)
    ensures forall attrs :: BlockShape(Block(Panel, attrs, content))
  {
  }

  predicate AllItems(ns: seq<Node>) {
    forall n :: n in ns ==> n.kind == ListItem && ListShape(n)
  }

  lemma ItemIsItem(content: seq<Node>)
    requires AllBlocks(content)
    ensures AllItems([ItemOf(content)])
  {
    ParagraphShape([]);
    hide BlockShape;
  }

  lemma {:induction false} ItemsAreItems(s: string)
    ensures AllItems(ItemsOf(s))
    decreases |s|, 2
  {
    hide ElementOf, BlocksOf, ItemOf, ListShape, AllBlocks;
    if s != "" && ElementOf(s).Element? {
      var e := ElementOf(s);
      BlocksAreBlocks(e.inner, "");
      ItemIsItem(BlocksOf(e.inner, ""));
      ItemsAreItems(s[e.used..]);
    }
  }

  predicate AllTasks(ns: seq<Node>) {
    forall n :: n in ns ==> n.kind == TaskItem && AllInline(n.content)
  }

  lemma {:induction false} TasksAreTasks(s: string)
    ensures AllTasks(TasksOf(s))
    decreases |s|, 2
  {
    hide ElementOf, TaskOf, AllInline;
    if s != "" && ElementOf(s).Element? {
      var e := ElementOf(s);
      EmptyTask();
      TaskIsTask(e.inner, EMPTY_TASK);
      TasksAreTasks(s[e.used..]);
    }
  }

  lemma EmptyTask()
    ensures EMPTY_TASK.kind == TaskItem && AllInline(EMPTY_TASK.content)
  {
  }

  lemma {:induction false} TaskIsTask(s: string, item: Node)
    requires item.kind == TaskItem && AllInline(item.content)
    ensures TaskOf(s, item).kind == TaskItem && AllInline(TaskOf(s, item).content)
    decreases |s|
  {
    hide ElementOf, AllInline, InlineOf, TrimSpace, UnescapeString;
    if s != "" && ElementOf(s).Element? {
      var e := ElementOf(s);
      InlineIsInline(e.inner);
      TaskIsTask(s[e.used..], WithField(item, e.name, e.inner));
    }
  }

  /** Whatever is read, every block of the document is one that is modelled, all the way down. */
  lemma ReadsBlocks(s: string)
    ensures FromHtml(s).kind == Doc && Shape(FromHtml(s)) && FromHtml(s).content != []
  {
    hide BlocksOf, BlockShape;
    BlocksAreBlocks(s, "");
    ParagraphShape([]);
  }
}
