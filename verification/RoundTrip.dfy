/** Documents printed as storage markup and read back. */
module RoundTrip {
  import opened Text
  import opened Escape
  import opened Adf
  import opened Storage
  import opened Markup
  import opened HtmlReader
  import opened StorageNested
  import opened StorageTags
  import opened Reading
  import opened Settle
  import opened RoundTripInline
  import opened RoundTripLeaves
  import opened PanelParts
  import opened PanelTitles
  import opened OpenMarkup
  import opened PanelHeads
  import opened Gather
  import opened GatherCuts
  import opened LooseReading

  lemma FlushEmpty()
    ensures Flush("") == []
  {
  }

  /** A block element is read where it stands. */
  lemma ReadBlock(tag: string, name: string, body: string, block: Node, more: string, loose: string)
    requires OpenTag(tag, name) && PlainName(name) && TagName(tag) == name && WellNested(body)
    requires BlockOf(name, tag, body) == Some(block)
    ensures BlocksOf(Elem(tag, name, body) + more, loose) == Flush(loose) + [block] + BlocksOf(more, "")
  {
    hide ElementOf, BlockOf, BlocksOf, WellNested, TagName, OpenTag, Flush, Elem;
    ElementAt(tag, name, body, more);
    ElemSome(tag, name, body, more);
    BlocksRound(Elem(tag, name, body) + more, loose);
  }

  lemma ElemSome(tag: string, name: string, body: string, more: string)
    ensures Elem(tag, name, body) + more != ""
  {
  }

  lemma ReadPlainBlock(name: string, body: string, block: Node, more: string, loose: string)
    requires PlainName(name) && WellNested(body) && BlockOf(name, name, body) == Some(block)
    ensures BlocksOf(Elem(name, name, body) + more, loose) == Flush(loose) + [block] + BlocksOf(more, "")
  {
    hide BlockOf, BlocksOf, WellNested, TagName, OpenTag, PlainName, Flush, Elem;
    TagNameSimple(name);
    OpenTagIs(name, "");
    assert name + "" == name;
    ReadBlock(name, name, body, block, more, loose);
  }

  lemma RuleBlock(tag: string)
    ensures BlockOf("hr", tag, "") == Some(Leaf(Rule, map[]))
  {
  }

  lemma ReadRule(more: string, loose: string)
    ensures BlocksOf("<hr/>" + more, loose) == Flush(loose) + [Leaf(Rule, map[])] + BlocksOf(more, "")
  {
    hide BlocksOf, BlockOf, Flush, ElementOf, TagName;
    assert PlainName("hr");
    TagNameClosed("hr");
    assert "hr" + "/" == "hr/" && "<" + "hr/" + ">" == "<hr/>";
    EmptyAt("hr/", "hr", more);
    BlocksRound("<hr/>" + more, loose);
    RuleBlock("hr/");
  }

  // ---- what each element is taken for ----

  lemma TextBlocks(inner: string)
    ensures BlockOf("p", "p", inner) == Some(Block(Paragraph, map[], InlineOf(inner)))
    ensures BlockOf("blockquote", "blockquote", inner) == Some(Block(Blockquote, map[], BlocksOf(inner, "")))
  {
    hide InlineOf, BlocksOf;
  }

  lemma ListBlocks(inner: string)
    ensures BlockOf("ul", "ul", inner) == Some(Block(BulletList, map[], ItemsOf(inner)))
    ensures BlockOf("ol", "ol", inner) == Some(Block(OrderedList, map[], ItemsOf(inner)))
  {
    hide ItemsOf;
  }

  lemma TaskListBlock(inner: string)
    ensures BlockOf("ac:task-list", "ac:task-list", inner) ==
            Some(Block(TaskList, map["localId" := Str("")], TasksOf(inner)))
  {
    hide TasksOf;
  }

  lemma HeadingBlock(level: nat, tag: string, inner: string)
    requires 1 <= level <= 6
    ensures BlockOf("h" + Itoa(level), tag, inner) ==
            Some(Block(Heading, map["level" := Num(level as real)], InlineOf(inner)))
  {
    hide InlineOf;
    HeadingName(level);
    var name := "h" + Itoa(level);
    assert name[1] == Digit(level) && name[0] == 'h' && |name| == 2;
    assert HeadingLevel(name) == Some(level);
  }

  lemma PanelKindIs(attrs: Attrs)
    ensures PanelKindOf(PanelMacro(attrs)) == Some(SettledKind(attrs))
  {
    hide TrimSpace, ToLower;
  }

  lemma MacroBlock(tag: string, macro: string, inner: string)
    requires ToLower(AttributeValue(tag, "ac:name")) == macro && PanelKindOf(macro).Some?
    ensures BlockOf("ac:structured-macro", tag, inner) ==
            Some(Block(Panel, map["panelType" := Str(PanelKindOf(macro).value)],
                       PanelTitle(MacroParameter(inner, "title")) + BlocksOf(MacroBody(inner, BODY), "")))
  {
    hide BlocksOf, AttributeValue, MacroParameter, MacroBody, PanelTitle, PanelKindOf;
  }

  // ---- code blocks ----

  lemma {:induction false} StrippedTag(tag: string, rest: string)
    requires '<' !in tag && '>' !in tag
    ensures Stripped(tag + ">" + rest, 1) == Stripped(rest, 0)
  {
    var s := tag + ">" + rest;
    if tag == "" {
      assert s[1..] == rest;
    } else {
      StrippedTag(tag[1..], rest);
      assert s[0] == tag[0] && tag[0] in tag && s[1..] == tag[1..] + ">" + rest;
    }
  }

  lemma {:induction false} StrippedText(text: string, rest: string)
    requires '<' !in text
    ensures Stripped(text + rest, 0) == text + Stripped(rest, 0)
  {
    if text == "" {
      assert text + rest == rest;
    } else {
      StrippedText(text[1..], rest);
      assert (text + rest)[0] == text[0] && text[0] in text && (text + rest)[1..] == text[1..] + rest;
    }
  }

  /** Without its tags an element shows its text. */
  lemma StrippedElem(name: string, text: string)
    requires '<' !in name && '>' !in name && '<' !in text
    ensures Stripped(Elem(name, name, text), 0) == text
  {
    hide Stripped;
    var behind := text + ("<" + ("/" + name) + ">");
    assert Elem(name, name, text) == "<" + (name + ">" + behind);
    StripOpens(name + ">" + behind);
    StrippedTag(name, behind);
    StrippedText(text, "<" + ("/" + name) + ">");
    assert "<" + ("/" + name) + ">" == "<" + ("/" + name + ">" + "");
    StripOpens("/" + name + ">" + "");
    StrippedTag("/" + name, "");
    StripOpens("");
  }

  lemma StripOpens(rest: string)
    ensures Stripped("<" + rest, 0) == Stripped(rest, 1)
    ensures Stripped("", 0) == ""
  {
    assert ("<" + rest)[1..] == rest;
  }

  lemma CodeBlockIs(n: Node)
    requires n.kind == CodeBlock
    ensures BlockOf("pre", "pre", Elem("code", "code", EscapeString(CollectText(n)))) == Some(SettleBlock(n))
  {
    hide Stripped, Elem, EscapeString, UnescapeString, CollectText, TrimSpace;
    var text := CollectText(n);
    EscapeIsInert(text);
    StrippedElem("code", EscapeString(text));
    EscapeRoundTrip(text);
    TrimBlank(UnescapeString(text));
  }

  /** The text of a code block is unescaped twice: its references turn into characters. */
  lemma CodeReads(n: Node, more: string, loose: string)
    requires n.kind == CodeBlock
    ensures BlocksOf(PrintNode(n) + more, loose) == Flush(loose) + [SettleBlock(n)] + BlocksOf(more, "")
  {
    hide BlocksOf, BlockOf, Flush, WellNested, Elem, EscapeString, CollectText, PlainName, SettleBlock;
    var inner := Elem("code", "code", EscapeString(CollectText(n)));
    BlockNames();
    InlineNames();
    EscapedNested(CollectText(n));
    NestedSimple("code", EscapeString(CollectText(n)));
    CodeBlockIs(n);
    ReadPlainBlock("pre", inner, SettleBlock(n), more, loose);
  }

  // ---- panels ----

  /** The body of a panel's macro, as it is printed. */
  function PanelInner(n: Node): string {
    Elem(BODY, BODY, PrintNodes(n.content))
  }

  lemma PanelShapeIs(n: Node)
    requires n.kind == Panel && LooseBlock(n)
    ensures AllMixed(n.content) && forall c :: c in n.content ==> Blockish(c)
  {
  }

  lemma PanelSettles(n: Node)
    requires n.kind == Panel
    ensures SettleBlock(n) ==
            Block(Panel, map["panelType" := Str(SettledKind(n.attrs))],
                  PanelTitle(StolenTitle(n.content)) + SettleBlocks(CutNodes(n.content)))
  {
    hide CutNodes, SettleBlocks, PanelTitle, StolenTitle, SettledKind, SettleInline, SettleItems, SettleTasks, CollectText,
         UnescapeString, TextOf, Level;
  }

  /** What the macro of a panel is taken for, by the title and the body that are found in it. */
  lemma PanelBlockOf(attrs: Attrs, inner: string)
    ensures BlockOf("ac:structured-macro", MacroTag(PanelMacro(attrs)), inner) ==
            Some(Block(Panel, map["panelType" := Str(SettledKind(attrs))],
                       PanelTitle(MacroParameter(inner, "title")) + BlocksOf(MacroBody(inner, BODY), "")))
  {
    hide BlocksOf, BlockOf, PanelMacro, MacroParameter, MacroBody, PanelTitle, SettledKind, MacroTag, PlainName, PanelKindOf, AttributeValue;
    var macro := PanelMacro(attrs);
    MacroIsName(attrs);
    PlainReads(macro);
    MacroTagReads(macro);
    PanelKindIs(attrs);
    MacroBlock(MacroTag(macro), macro, inner);
  }

  lemma PanelTagReads(attrs: Attrs)
    ensures var tag, name := MacroTag(PanelMacro(attrs)), "ac:structured-macro";
            OpenTag(tag, name) && PlainName(name) && TagName(tag) == name && name <= tag
  {
    hide OpenTag, PlainName, TagName, PanelMacro, Attr;
    MacroOpens(attrs);
    MacroIsName(attrs);
    NameInert(PanelMacro(attrs));
    MacroNames();
    TagNameAttr("ac:structured-macro", "ac:name", PanelMacro(attrs));
    NameInert("ac:structured-macro");
    NameInert("ac:name");
    AttrInert("ac:structured-macro", "ac:name", PanelMacro(attrs));
  }

  /** A panel whose content is gathered gets the same title, and keeps what is kept, gathered. */
  lemma GatheredPanelSettles(n: Node)
    requires n.kind == Panel
    ensures SettleBlock(Gathered(n)) ==
            Block(Panel, map["panelType" := Str(SettledKind(n.attrs))],
                  PanelTitle(StolenTitle(n.content)) + SettleBlocks(GatherAll([], CutNodes(n.content))))
  {
    hide CutNodes, SettleBlocks, PanelTitle, StolenTitle, SettledKind, GatherAll, SettleBlock, Gathered;
    GatheredIs(n);
    PanelSettles(Gathered(n));
    TitleKept(n.content);
    NoneInline();
    GatherCut([], n.content);
  }

  /** A panel reads as a panel of its settled kind, behind its title, with what it keeps of its content. */
  lemma PanelReads(n: Node, more: string, loose: string)
    requires n.kind == Panel && LooseBlock(n)
    requires BlocksOf(HeadNodes(n.content), "") == SettleBlocks(GatherAll([], CutNodes(n.content)))
    ensures BlocksOf(PrintNode(n) + more, loose) == Flush(loose) + [SettleBlock(Gathered(n))] + BlocksOf(more, "")
  {
    hide BlocksOf, BlockOf, WellNested, Elem, PrintNodes, PanelMacro, SettleBlocks, SettleBlock, LooseBlock, TagName, OpenTag, HeadNodes, CutNodes, PlainName, MacroTag, Blockish, MacroBody, MacroParameter, StolenTitle, PanelTitle, SettledKind, GatherAll, Gathered, Flush, AllMixed;
    NodesNested(n.content);
    MacroNames();
    NestedSimple(BODY, PrintNodes(n.content));
    PanelShapeIs(n);
    PanelTagReads(n.attrs);
    PanelBlockOf(n.attrs, PanelInner(n));
    TitleIs(n.content);
    PanelBodyIs(n.content);
    GatheredPanelSettles(n);
    ReadBlock(MacroTag(PanelMacro(n.attrs)), "ac:structured-macro", PanelInner(n), SettleBlock(Gathered(n)), more, loose);
  }

  // ---- blocks left open, inside a panel that ends at another one ----

  /** A block element left open is read with all that is left. */
  lemma ReadOpenBlock(tag: string, name: string, rest: string, block: Node, loose: string)
    requires OpenTag(tag, name) && PlainName(name) && TagName(tag) == name && name <= tag && LeftOpen(rest)
    requires BlockOf(name, tag, rest) == Some(block)
    ensures BlocksOf("<" + tag + ">" + rest, loose) == Flush(loose) + [block]
  {
    hide ElementOf, BlockOf, BlocksOf, LeftOpen, TagName, OpenTag, Flush, PlainName;
    var s := "<" + tag + ">" + rest;
    OpenElement(tag, name, rest);
    BlocksRound(s, loose);
    BlocksRound("", "");
    FlushEmpty();
    assert s[|s|..] == "" && Flush(loose) + [block] + [] == Flush(loose) + [block];
  }

  lemma ReadOpenPlain(name: string, rest: string, block: Node, loose: string)
    requires PlainName(name) && LeftOpen(rest) && BlockOf(name, name, rest) == Some(block)
    ensures BlocksOf("<" + name + ">" + rest, loose) == Flush(loose) + [block]
  {
    hide BlockOf, BlocksOf, LeftOpen, TagName, OpenTag, PlainName, Flush;
    TagNameSimple(name);
    OpenTagIs(name, "");
    assert name + "" == name;
    ReadOpenBlock(name, name, rest, block, loose);
  }

  lemma HeadIsOpen(ns: seq<Node>)
    requires forall c :: c in ns ==> Blockish(c)
    ensures LeftOpen(HeadNodes(ns))
  {
    hide Blockish, HeadNodes, LeftOpen, Tags;
    HeadWithoutEnd(ns);
  }

  /** A panel whose body is cut before its end. */
  lemma OpenPanelReads(n: Node, loose: string)
    requires n.kind == Panel && LooseBlock(n)
    requires BlocksOf(HeadNodes(n.content), "") == SettleBlocks(GatherAll([], CutNodes(n.content)))
    ensures BlocksOf(HeadNode(n), loose) == Flush(loose) + [SettleBlock(Gathered(CutNode(n)))]
  {
    hide BlocksOf, BlockOf, PanelMacro, SettleBlocks, SettleBlock, LooseBlock, TagName, OpenTag, HeadNodes, CutNodes, PlainName, MacroTag, Blockish, MacroBody, MacroParameter, LeftOpen, Tags, StolenTitle, PanelTitle, SettledKind, GatherAll, Gathered, Flush, AllMixed;
    var head, tag := HeadNodes(n.content), MacroTag(PanelMacro(n.attrs));
    var inner := "<" + BODY + ">" + head;
    PanelShapeIs(n);
    HeadWithoutEnd(n.content);
    OpenNames();
    OpenInside(BODY, BODY, head);
    PanelTagReads(n.attrs);
    PanelBlockOf(n.attrs, inner);
    HeadTitle(n.content);
    OpenBodyIs(head);
    CutTwice(n.content);
    GatheredPanelSettles(CutNode(n));
    ReadOpenBlock(tag, "ac:structured-macro", inner, SettleBlock(Gathered(CutNode(n))), loose);
    assert Opener(n) == "<" + tag + ">" + ("<" + BODY + ">");
    Assoc("<" + tag + ">", "<" + BODY + ">", head);
  }

  lemma GatheredCutSettles(n: Node)
    ensures n.kind == Blockquote ==>
              SettleBlock(Gathered(CutNode(n))) == Block(Blockquote, map[], SettleBlocks(GatherAll([], CutNodes(n.content))))
    ensures n.kind == BulletList ==>
              SettleBlock(Gathered(CutNode(n))) == Block(BulletList, map[], SettleItems(GatheredItems(CutNodes(n.content))))
    ensures n.kind == OrderedList ==>
              SettleBlock(Gathered(CutNode(n))) == Block(OrderedList, map[], SettleItems(GatheredItems(CutNodes(n.content))))
  {
    hide SettleBlocks, SettleItems, GatherAll, GatheredItems, CutNodes;
  }

  /** A quote or a list cut inside it. */
  lemma OpenBlockReads(n: Node, loose: string)
    requires LooseBlock(n) && n.kind in {Blockquote, BulletList, OrderedList}
    requires n.kind == Blockquote ==> BlocksOf(HeadNodes(n.content), "") == SettleBlocks(GatherAll([], CutNodes(n.content)))
    requires n.kind != Blockquote ==> ItemsOf(HeadNodes(n.content)) == SettleItems(GatheredItems(CutNodes(n.content)))
    ensures BlocksOf(HeadNode(n), loose) == Flush(loose) + [SettleBlock(Gathered(CutNode(n)))]
  {
    ContentBlockish(n);
    hide BlocksOf, BlockOf, ItemsOf, SettleBlocks, SettleBlock, SettleItems, LooseBlock, HeadNodes, CutNodes, CutNode, PlainName, Blockish, LeftOpen, Gathered, GatheredItems, GatherAll, Flush;
    var head := HeadNodes(n.content);
    HeadIsOpen(n.content);
    BlockNames();
    TextBlocks(head);
    ListBlocks(head);
    GatheredCutSettles(n);
    match n.kind
    case Blockquote => ReadOpenPlain("blockquote", head, SettleBlock(Gathered(CutNode(n))), loose);
    case BulletList => ReadOpenPlain("ul", head, SettleBlock(Gathered(CutNode(n))), loose);
    case OrderedList => ReadOpenPlain("ol", head, SettleBlock(Gathered(CutNode(n))), loose);
  }

  lemma ContentBlockish(n: Node)
    requires LooseBlock(n) && n.kind in {Blockquote, Panel, BulletList, OrderedList}
    ensures forall c :: c in n.content ==> Blockish(c)
  {
  }

  lemma SettlesOne(n: Node)
    ensures SettleBlocks([n]) == [SettleBlock(n)]
    ensures SettleItems([n]) == [ItemOf(SettleBlocks(n.content))]
  {
    hide SettleBlock, ItemOf;
    assert [n][1..] == [] && SettleBlocks([]) == [] && SettleItems([]) == [];
    hide SettleBlocks;
  }

  lemma SettlesJoined(n: Node, ns: seq<Node>)
    ensures SettleBlocks([n] + ns) == [SettleBlock(n)] + SettleBlocks(ns)
    ensures SettleItems([n] + ns) == [ItemOf(SettleBlocks(n.content))] + SettleItems(ns)
  {
    hide SettleBlock, ItemOf;
    assert ([n] + ns)[1..] == ns;
  }

  lemma {:induction false} SettlesConcat(a: seq<Node>, b: seq<Node>)
    ensures SettleBlocks(a + b) == SettleBlocks(a) + SettleBlocks(b)
  {
    hide SettleBlock;
    if a == [] {
      assert a + b == b;
    } else {
      SettlesConcat(a[1..], b);
      assert (a + b)[1..] == a[1..] + b;
    }
  }

  lemma MixedInside(n: Node)
    requires LooseBlock(n) && n.kind in {Blockquote, Panel}
    ensures AllMixed(n.content)
  {
  }

  lemma MixedFirst(ns: seq<Node>)
    requires ns != [] && AllMixed(ns)
    ensures AllMixed(ns[1..]) && (!InlineKind(ns[0].kind) ==> LooseBlock(ns[0]))
    ensures InlineKind(ns[0].kind) ==> !HasPanel(ns[0])
  {
    hide LooseBlock;
    assert Mixed(ns[0]);
  }

  lemma PanelIsBlock(ns: seq<Node>)
    requires ns != [] && AllMixed(ns) && HasPanel(ns[0])
    ensures !InlineKind(ns[0].kind) && LooseBlock(ns[0])
  {
    hide LooseBlock, HasPanel;
    MixedFirst(ns);
  }

  /** The first of some nodes is inline: it joins the run before them. */
  lemma RunGrows(run: seq<Node>, n: Node, more: string)
    requires InlineKind(n.kind)
    ensures BlocksOf(PrintNode(n) + more, PrintNodes(run)) == BlocksOf(more, PrintNodes(run + [n]))
  {
    hide BlocksOf, PrintNodes, PrintNode;
    InlineShift(n, more, PrintNodes(run));
    PrintSnoc(run, n);
  }

  /** A run, a block, and what follows it. */
  lemma RunThenBlock(run: seq<Node>, n: Node, ns: seq<Node>, rest: seq<Node>)
    requires AllInline(run) && !InlineKind(n.kind) && rest == SettleBlocks(GatherAll([], ns))
    ensures Flush(PrintNodes(run)) + [SettleBlock(Gathered(n))] + rest == SettleBlocks(GatherAll(run, [n] + ns))
  {
    hide SettleBlocks, SettleBlock, GatherAll, Gathered, Paragraphs, Flush, PrintNodes, AllInline, InlineKind;
    FlushReads(run);
    GatherBlock(run, n, ns);
    SettlesConcat(Paragraphs(run) + [Gathered(n)], GatherAll([], ns));
    SettlesConcat(Paragraphs(run), [Gathered(n)]);
    SettlesOne(Gathered(n));
  }

  lemma RunEnds(run: seq<Node>)
    requires AllInline(run)
    ensures BlocksOf("", PrintNodes(run)) == SettleBlocks(GatherAll(run, []))
    ensures PrintNodes([]) == "" && HeadNodes([]) == "" && CutNodes([]) == []
  {
    hide Paragraphs, Flush, SettleBlocks, AllInline;
    FlushReads(run);
  }

  /**
   * The part of the content that a panel keeps reads as that content, cut and gathered, settles; `run`
   * is the inline content set aside before it.
   */
  lemma {:induction false} HeadReads(run: seq<Node>, ns: seq<Node>)
    requires AllInline(run) && AllMixed(ns)
    ensures BlocksOf(HeadNodes(ns), PrintNodes(run)) == SettleBlocks(GatherAll(run, CutNodes(ns)))
    decreases ns, 2
  {
    hide BlocksOf, LooseBlock, SettleBlock, SettleBlocks, PrintNode, PrintNodes, HasPanel, HeadNode, HeadNodes, CutNode, CutNodes,
         GatherAll, Gathered, Flush, AllInline, AllMixed, InlineKind;
    RunEnds(run);
    if ns != [] {
      var n := ns[0];
      HeadsStep(ns);
      MixedFirst(ns);
      NoneInline();
      if HasPanel(n) {
        PanelIsBlock(ns);
        HeadNodeReads(n, PrintNodes(run));
        GatherNone([]);
        NothingSettles();
        RunThenBlock(run, CutNode(n), [], []);
        assert [CutNode(n)] + [] == [CutNode(n)];
        assert Flush(PrintNodes(run)) + [SettleBlock(Gathered(CutNode(n)))] + [] == Flush(PrintNodes(run)) + [SettleBlock(Gathered(CutNode(n)))];
      } else if InlineKind(n.kind) {
        RunGrows(run, n, HeadNodes(ns[1..]));
        InlineSnoc(run, n);
        HeadReads(run + [n], ns[1..]);
        GatherInline(run, n, CutNodes(ns[1..]));
      } else {
        BlockReads(n, HeadNodes(ns[1..]), PrintNodes(run));
        HeadReads([], ns[1..]);
        NothingPrints();
        RunThenBlock(run, n, CutNodes(ns[1..]), BlocksOf(HeadNodes(ns[1..]), ""));
      }
    }
  }

  lemma NothingSettles()
    ensures SettleBlocks([]) == []
  {
  }

  lemma {:induction false} HeadNodeReads(n: Node, loose: string)
    requires LooseBlock(n) && HasPanel(n)
    ensures BlocksOf(HeadNode(n), loose) == Flush(loose) + [SettleBlock(Gathered(CutNode(n)))]
    decreases n, 1
  {
    LooseCarrier(n);
    NoneInline();
    NothingPrints();
    hide BlocksOf, SettleBlock, SettleBlocks, HasPanel, HeadNode, HeadNodes, CutNode, CutNodes, SettleItems, ItemsOf, Blockish, GatherAll, GatheredItems, Gathered, Flush, AllInline;
    if n.kind in {Blockquote, Panel} {
      MixedInside(n);
      HeadReads([], n.content);
    } else {
      HeadItemsRead(n.content);
    }
    if n.kind == Panel { OpenPanelReads(n, loose); } else { OpenBlockReads(n, loose); }
  }

  lemma ReadOpenItem(rest: string)
    requires LeftOpen(rest)
    ensures ItemsOf("<" + "li" + ">" + rest) == [ItemOf(BlocksOf(rest, ""))]
  {
    hide ElementOf, BlocksOf, LeftOpen, TagName, OpenTag, ItemOf;
    assert PlainName("li");
    TagNameSimple("li");
    OpenTagIs("li", "");
    assert "li" + "" == "li";
    OpenElement("li", "li", rest);
    var s := "<" + "li" + ">" + rest;
    assert s[|s|..] == "" && ItemsOf("") == [];
    assert [ItemOf(BlocksOf(rest, ""))] + [] == [ItemOf(BlocksOf(rest, ""))];
  }

  /** An item of a list settles as what its content, gathered, settles as. */
  lemma ItemSettles(item: Node, more: seq<Node>)
    requires item.kind == ListItem
    ensures SettleItems(GatheredItems([item] + more)) ==
            [ItemOf(SettleBlocks(GatherAll([], item.content)))] + SettleItems(GatheredItems(more))
    ensures SettleItems(GatheredItems([item])) == [ItemOf(SettleBlocks(GatherAll([], item.content)))]
  {
    hide SettleBlocks, SettleItems, ItemOf, GatherAll, GatheredItems;
    ItemsJoin(item, more);
    ItemsJoin(item, []);
    assert [item] + [] == [item] && [Gathered(item)] + [] == [Gathered(item)];
    SettlesJoined(Gathered(item), GatheredItems(more));
    SettlesOne(Gathered(item));
  }

  lemma {:induction false} HeadItemsRead(items: seq<Node>)
    requires forall c :: c in items ==> c.kind == ListItem && LooseItem(c)
    ensures ItemsOf(HeadNodes(items)) == SettleItems(GatheredItems(CutNodes(items)))
    decreases items, 2
  {
    hide BlocksOf, LooseBlock, SettleBlock, SettleBlocks, PrintNode, HasPanel, SettleItems, ItemsOf, Elem, ItemOf, Blockish, CutNode, CutNodes, HeadNode, HeadNodes, GatheredItems, GatherAll, AllMixed, LooseItem, AllInline;
    NoneInline();
    NothingPrints();
    if items == [] {
      NoItems();
    } else {
      var item := items[0];
      ItemShape(item);
      HeadsStep(items);
      if HasPanel(item) {
        HeadReads([], item.content);
        ItemBlockish(item);
        HeadIsOpen(item.content);
        ReadOpenItem(HeadNodes(item.content));
        CutItem(item);
        ItemSettles(CutNode(item), []);
      } else {
        NodesNested(item.content);
        MixedReads([], item.content);
        HeadItemsRead(items[1..]);
        ReadItem(PrintNodes(item.content), HeadNodes(items[1..]));
        ItemSettles(item, CutNodes(items[1..]));
      }
    }
  }

  lemma NoItems()
    ensures HeadNodes([]) == "" && CutNodes([]) == [] && ItemsOf("") == [] && SettleItems([]) == [] && GatheredItems([]) == []
    ensures PrintNodes([]) == ""
  {
  }

  lemma HeadsStep(ns: seq<Node>)
    requires ns != []
    ensures HeadNodes(ns) == if HasPanel(ns[0]) then HeadNode(ns[0]) else PrintNode(ns[0]) + HeadNodes(ns[1..])
    ensures CutNodes(ns) == if HasPanel(ns[0]) then [CutNode(ns[0])] else [ns[0]] + CutNodes(ns[1..])
  {
    hide HasPanel, HeadNode, CutNode, PrintNode;
  }

  lemma CutItem(item: Node)
    ensures CutNode(item).content == CutNodes(item.content) && CutNode(item).kind == item.kind
    ensures item.kind == ListItem ==> HeadNode(item) == "<" + "li" + ">" + HeadNodes(item.content)
  {
    hide HeadNodes, CutNodes;
  }

  lemma ItemBlockish(item: Node)
    requires AllMixed(item.content)
    ensures forall c :: c in item.content ==> Blockish(c)
  {
    hide Mixed;
  }

  // ---- blocks ----

  /**
   * A block is read as its gathered form settles, behind a paragraph of what was set aside before it,
   * and what follows it is read on its own.
   */
  lemma {:induction false} BlockReads(n: Node, more: string, loose: string)
    requires LooseBlock(n)
    ensures BlocksOf(PrintNode(n) + more, loose) == Flush(loose) + [SettleBlock(Gathered(n))] + BlocksOf(more, "")
    decreases n, 0
  {
    hide BlocksOf, BlockOf, InlineOf, ItemsOf, TasksOf, WellNested, Elem, PrintNodes, PlainName, SettleInline, Macro, HeadNodes, CutNodes, StolenTitle, PanelTitle, GatherAll, GatheredItems, Flush, SettleBlocks, SettleItems, SettleTasks, CollectText, SettledKind;
    var body := PrintNodes(n.content);
    NodesNested(n.content);
    BlockNames();
    match n.kind
    case Paragraph =>
      InlineRoundTrip(n.content);
      TextBlocks(body);
      ReadPlainBlock("p", body, SettleBlock(n), more, loose);
    case Heading =>
      InlineRoundTrip(n.content);
      var name := "h" + Itoa(Level(n.attrs));
      HeadingName(Level(n.attrs));
      HeadingBlock(Level(n.attrs), name, body);
      ReadPlainBlock(name, body, SettleBlock(n), more, loose);
    case TaskList =>
      TaskNames();
      TasksRead(n.content, 0);
      ItemsNested(n.content, 0);
      TaskListBlock(PrintItems(n.content, 0));
      ReadPlainBlock("ac:task-list", PrintItems(n.content, 0), SettleBlock(n), more, loose);
    case CodeBlock => CodeReads(n, more, loose);
    case Rule => ReadRule(more, loose);
    case Panel =>
      PanelContentReads(n);
      PanelReads(n, more, loose);
    case BulletList => ContainerReads(n, more, loose);
    case OrderedList => ContainerReads(n, more, loose);
    case Blockquote => ContainerReads(n, more, loose);
  }

  lemma {:induction false} PanelContentReads(n: Node)
    requires n.kind == Panel && LooseBlock(n)
    ensures BlocksOf(HeadNodes(n.content), "") == SettleBlocks(GatherAll([], CutNodes(n.content)))
    decreases n.content, 3
  {
    hide BlocksOf, HeadNodes, GatherAll, CutNodes, SettleBlocks;
    MixedInside(n);
    NoneInline();
    NothingPrints();
    HeadReads([], n.content);
  }

  lemma {:induction false} ContainerReads(n: Node, more: string, loose: string)
    requires LooseBlock(n) && n.kind in {BulletList, OrderedList, Blockquote}
    ensures BlocksOf(PrintNode(n) + more, loose) == Flush(loose) + [SettleBlock(Gathered(n))] + BlocksOf(more, "")
    decreases n.content, 3
  {
    hide BlocksOf, BlockOf, ItemsOf, WellNested, Elem, PrintNodes, PlainName, GatherAll, GatheredItems, Flush, SettleBlocks, SettleItems, AllMixed, AllInline;
    var body, block := PrintNodes(n.content), SettleBlock(Gathered(n));
    NodesNested(n.content);
    BlockNames();
    NoneInline();
    NothingPrints();
    TextBlocks(body);
    ListBlocks(body);
    match n.kind
    case BulletList =>
      ItemsRead(n.content);
      ReadPlainBlock("ul", body, block, more, loose);
    case OrderedList =>
      ItemsRead(n.content);
      ReadPlainBlock("ol", body, block, more, loose);
    case Blockquote =>
      MixedInside(n);
      MixedReads([], n.content);
      ReadPlainBlock("blockquote", body, block, more, loose);
  }

  /** Blocks with inline content among them are read as that content gathered; `run` was set aside before. */
  lemma {:induction false} MixedReads(run: seq<Node>, ns: seq<Node>)
    requires AllInline(run) && AllMixed(ns)
    ensures BlocksOf(PrintNodes(ns), PrintNodes(run)) == SettleBlocks(GatherAll(run, ns))
    decreases ns, 1
  {
    hide BlocksOf, LooseBlock, SettleBlock, SettleBlocks, PrintNode, GatherAll, Gathered, Flush, AllInline, AllMixed, InlineKind, PrintNodes;
    RunEnds(run);
    if ns != [] {
      var n, rest := ns[0], ns[1..];
      assert ns == [n] + rest;
      PrintFirst(n, rest);
      MixedFirst(ns);
      if InlineKind(n.kind) {
        RunGrows(run, n, PrintNodes(rest));
        InlineSnoc(run, n);
        MixedReads(run + [n], rest);
        GatherInline(run, n, rest);
      } else {
        BlockReads(n, PrintNodes(rest), PrintNodes(run));
        NoneInline();
        NothingPrints();
        MixedReads([], rest);
        RunThenBlock(run, n, rest, BlocksOf(PrintNodes(rest), ""));
      }
    }
  }

  /** A list item is read where it stands. */
  lemma ReadItem(body: string, more: string)
    requires WellNested(body)
    ensures ItemsOf(Elem("li", "li", body) + more) == [ItemOf(BlocksOf(body, ""))] + ItemsOf(more)
  {
    hide ElementOf, BlocksOf, WellNested, TagName, OpenTag, ItemOf;
    assert PlainName("li");
    TagNameSimple("li");
    OpenTagIs("li", "");
    assert "li" + "" == "li";
    ElementAt("li", "li", body, more);
  }

  lemma ItemShape(item: Node)
    requires item.kind == ListItem && LooseItem(item)
    ensures PrintNode(item) == Elem("li", "li", PrintNodes(item.content))
    ensures AllMixed(item.content)
  {
    hide PrintNodes, Elem, Mixed;
  }

  lemma {:induction false} ItemsRead(items: seq<Node>)
    requires forall c :: c in items ==> c.kind == ListItem && LooseItem(c)
    ensures ItemsOf(PrintNodes(items)) == SettleItems(GatheredItems(items))
    decreases items, 1
  {
    hide BlocksOf, PrintNode, PrintNodes, SettleBlocks, SettleItems, ItemsOf, LooseItem, Elem, ItemOf, GatheredItems, GatherAll, AllMixed, AllInline;
    if items == [] {
      NoItems();
    } else {
      var item, more := items[0], items[1..];
      assert items == [item] + more;
      PrintFirst(item, more);
      ItemShape(item);
      NodesNested(item.content);
      NoneInline();
      NothingPrints();
      MixedReads([], item.content);
      ItemsRead(more);
      ReadItem(PrintNodes(item.content), PrintNodes(more));
      ItemSettles(item, more);
    }
  }

  // ---- task lists ----

  lemma ReadField(name: string, value: string, item: Node, more: string)
    requires PlainName(name) && WellNested(value)
    ensures TaskOf(Elem(name, name, value) + more, item) == TaskOf(more, WithField(item, name, value))
  {
    hide ElementOf, WellNested, TagName, OpenTag, WithField, PlainName;
    TagNameSimple(name);
    OpenTagIs(name, "");
    assert name + "" == name;
    ElementAt(name, name, value, more);
  }

  lemma TaskEnd(item: Node)
    ensures TaskOf("", item) == item
  {
  }

  lemma FieldsGive(id: string, state: string, content: seq<Node>, value: string)
    requires InlineOf(value) == content && (state == "complete" || state == "incomplete")
    ensures WithField(WithField(WithField(EMPTY_TASK, "ac:task-id", EscapeString(id)), "ac:task-status", state), "ac:task-body", value) ==
            Block(TaskItem, map["localId" := Str(TrimSpace(id)),
                                "state" := Str(if state == "complete" then "DONE" else "TODO")], content)
  {
    hide InlineOf, TrimSpace;
    EscapeTrim(id);
    assert PlainName("complete") && PlainName("incomplete");
    PlainReads("complete");
    PlainReads("incomplete");
    TwoKeys(TrimSpace(id), state);
  }

  lemma TwoKeys(id: string, state: string)
    ensures map["localId" := Str(""), "state" := Str("TODO")]["localId" := Str(id)] ==
            map["localId" := Str(id), "state" := Str("TODO")]
    ensures map["localId" := Str(id), "state" := Str("TODO")]["state" := Str("DONE")] ==
            map["localId" := Str(id), "state" := Str("DONE")]
  {
  }

  /** The fields a task is written with give the task back. */
  lemma TaskReads(item: Node, place: nat)
    requires item.kind == TaskItem && AllInline(item.content)
    ensures var attrs := NamedAttrs(item, place);
            TaskOf(TaskFields(attrs) + Elem("ac:task-body", "ac:task-body", PrintNodes(item.content)), EMPTY_TASK) ==
            SettleTask(item, place)
  {
    hide TaskOf, WithField, WellNested, Elem, InlineOf, PrintNodes, SettleInline, PlainName, EscapeString, TrimSpace;
    var attrs, body := NamedAttrs(item, place), PrintNodes(item.content);
    var id, state := StrAttr(attrs, "localId"), TaskState(attrs);
    TaskNames();
    InlineRoundTrip(item.content);
    NodesNested(item.content);
    EscapedNested(id);
    NestedText(state);
    var i0 := WithField(EMPTY_TASK, "ac:task-id", EscapeString(id));
    var i1 := WithField(i0, "ac:task-status", state);
    var e0, e1, e2 := Elem("ac:task-id", "ac:task-id", EscapeString(id)), Elem("ac:task-status", "ac:task-status", state), Elem("ac:task-body", "ac:task-body", body);
    ReadField("ac:task-id", EscapeString(id), EMPTY_TASK, e1 + e2);
    Assoc(e0, e1, e2);
    ReadField("ac:task-status", state, i0, e2);
    ReadField("ac:task-body", body, i1, "");
    assert e2 + "" == e2;
    TaskEnd(WithField(i1, "ac:task-body", body));
    FieldsGive(id, state, InlineOf(body), body);
    StateKept(item, place);
  }

  lemma StateKept(item: Node, place: nat)
    ensures TaskState(NamedAttrs(item, place)) == TaskState(item.attrs)
  {
  }

  lemma ReadTaskElem(body: string, more: string)
    requires WellNested(body)
    ensures TasksOf(Elem("ac:task", "ac:task", body) + more) == [TaskOf(body, EMPTY_TASK)] + TasksOf(more)
  {
    hide ElementOf, TaskOf, WellNested, TagName, OpenTag;
    assert PlainName("ac:task");
    TagNameSimple("ac:task");
    OpenTagIs("ac:task", "");
    assert "ac:task" + "" == "ac:task";
    ElementAt("ac:task", "ac:task", body, more);
  }

  function TaskBody(item: Node, place: nat): string {
    TaskFields(NamedAttrs(item, place)) + Elem("ac:task-body", "ac:task-body", PrintNodes(item.content))
  }

  lemma TaskPrints(item: Node, place: nat)
    requires item.kind == TaskItem
    ensures PrintItem(item, place) == Elem("ac:task", "ac:task", TaskBody(item, place))
    ensures WellNested(TaskBody(item, place))
  {
    hide WellNested, Elem, TaskFields, PrintNodes;
    var attrs, body := NamedAttrs(item, place), PrintNodes(item.content);
    NodesNested(item.content);
    TaskNames();
    AvoidsFields(attrs, TITLE);
    NestedSimple("ac:task-body", body);
    NestedConcat(TaskFields(attrs), Elem("ac:task-body", "ac:task-body", body));
  }

  lemma {:induction false} TasksRead(items: seq<Node>, place: nat)
    requires forall c :: c in items ==> c.kind == TaskItem && AllInline(c.content)
    ensures TasksOf(PrintItems(items, place)) == SettleTasks(items, place)
    decreases items, 1
  {
    hide ElementOf, TaskOf, PrintItem, SettleTask, Elem, TaskFields, TaskBody;
    if items != [] {
      var item, more := items[0], PrintItems(items[1..], place + 1);
      TaskPrints(item, place);
      TaskReads(item, place);
      TaskBodyIs(item, place);
      TasksRead(items[1..], place + 1);
      ReadTaskElem(TaskBody(item, place), more);
    }
  }

  lemma TaskBodyIs(item: Node, place: nat)
    ensures TaskBody(item, place) ==
            TaskFields(NamedAttrs(item, place)) + Elem("ac:task-body", "ac:task-body", PrintNodes(item.content))
  {
  }

  // ---- whole documents ----

  /** The document with its inline content gathered into paragraphs. */
  function GatheredDoc(doc: Node): Node {
    doc.(content := GatherAll([], doc.content))
  }

  /**
   * Reading a document's storage markup gives exactly its settled form, the inline content among its
   * blocks gathered: every run of it, trimmed, is a paragraph in its place between them.
   */
  lemma ReadsGathered(doc: Node)
    requires AllMixed(doc.content)
    ensures FromHtml(ToStorage(doc)) == Settled(GatheredDoc(doc))
  {
    hide BlocksOf, PrintNodes, Mixed, SettleBlocks, GatherAll;
    NoneInline();
    NothingPrints();
    MixedReads([], doc.content);
    NothingSettles();
  }

  /** Reading the storage markup of blocks gives exactly the document's settled form. */
  lemma ReadsSettled(doc: Node)
    requires Shape(doc)
    ensures FromHtml(ToStorage(doc)) == Settled(doc)
  {
    hide FromHtml, ToStorage, BlockShape, Settled, AllMixed, GatherAll;
    AllAreLoose(doc.content);
    ReadsGathered(doc);
  }
}
