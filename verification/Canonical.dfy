/** The documents that come back from storage markup exactly as they were. */
module Canonical {
  import opened Text
  import opened Escape
  import opened Adf
  import opened Calendar
  import opened Decimals
  import opened Storage
  import opened Markup
  import opened HtmlReader
  import opened StorageNested
  import opened Settle
  import opened RoundTripLeaves
  import opened PanelHeads
  import opened Gather
  import opened RoundTrip
  import opened ReadShape

  ghost predicate CanonicalMarks(marks: seq<Mark>) {
    exists link, code, strong, em :: marks == MarksInOrder(link, code, strong, em) && SafeHref(link) == link
  }

  predicate CanonicalMention(attrs: Attrs) {
    var id, text := StrAttr(attrs, "id"), StrAttr(attrs, "text");
    && id != ""
    && (attrs == map["id" := Str(id)] ||
        (attrs == map["id" := Str(id), "text" := Str(text)] && "@" < text && TrimSpace(text[1..]) == text[1..]))
  }

  predicate CanonicalStatus(attrs: Attrs) {
    var text, colour := StrAttr(attrs, "text"), StrAttr(attrs, "color");
    attrs == map["text" := Str(text), "color" := Str(colour)] && TrimSpace(text) == text && StatusColour(colour)
  }

  predicate CanonicalDate(attrs: Attrs) {
    var moment := Moment(attrs);
    && moment.Some? && moment.value % DAY == 0 && FourDigitYear(DayAt(moment.value).year)
    && attrs == map["timestamp" := Str(IntText(moment.value))]
  }

  ghost predicate CanonicalLeaf(n: Node) {
    match n.kind
    case Text => n == TextNode(n.text, n.marks) && !Blank(n.text) && CanonicalMarks(n.marks)
    case Mention => n == Leaf(Mention, n.attrs) && CanonicalMention(n.attrs)
    case Status => n == Leaf(Status, n.attrs) && CanonicalStatus(n.attrs)
    case HardBreak => n == Leaf(HardBreak, map[])
    case Date => n == Leaf(Date, n.attrs) && CanonicalDate(n.attrs)
    case _ => false
  }

  predicate Unmarked(n: Node) {
    n.kind == Kind.Text && n.marks == []
  }

  /** Canonical leaves, no two unmarked texts side by side. */
  ghost predicate CanonicalInline(ns: seq<Node>) {
    && (forall n :: n in ns ==> CanonicalLeaf(n))
    && (forall i :: 0 < i < |ns| ==> !(Unmarked(ns[i - 1]) && Unmarked(ns[i])))
  }

  predicate Bare(n: Node) {
    n.text == "" && n.marks == []
  }

  ghost predicate CanonicalTask(item: Node) {
    var id, state := StrAttr(item.attrs, "localId"), StrAttr(item.attrs, "state");
    && item.kind == TaskItem && Bare(item)
    && item.attrs == map["localId" := Str(id), "state" := Str(state)]
    && id != "" && TrimSpace(id) == id && (state == "TODO" || state == "DONE")
    && CanonicalInline(item.content)
  }

  ghost predicate CanonicalItem(item: Node) {
    && item.kind == ListItem && Bare(item) && item.attrs == map[] && item.content != []
    && forall c :: c in item.content ==> CanonicalBlock(c)
  }

  predicate CanonicalKind(attrs: Attrs) {
    var kind := StrAttr(attrs, "panelType");
    attrs == map["panelType" := Str(kind)] && (PanelKind(kind) || kind == "custom")
  }

  /**
   * Nothing stands behind a panel: each node that is a panel or holds one is the last of its
   * siblings, and so on inside it.
   */
  predicate PanelLast(ns: seq<Node>) {
    forall i :: 0 <= i < |ns| && HasPanel(ns[i]) ==> i == |ns| - 1 && PanelLast(ns[i].content)
  }

  /**
   * The first status in a panel shows no text, for it comes back as a title, and in a panel
   * nothing stands behind another one. Code comes back with a line end more, if there is any.
   */
  ghost predicate CanonicalBlock(n: Node) {
    Bare(n) &&
    match n.kind
    case Paragraph => n.attrs == map[] && CanonicalInline(n.content)
    case Heading => n.attrs == map["level" := Num(Level(n.attrs) as real)] && CanonicalInline(n.content)
    case BulletList => n.attrs == map[] && forall c :: c in n.content ==> CanonicalItem(c)
    case OrderedList => n.attrs == map[] && forall c :: c in n.content ==> CanonicalItem(c)
    case Blockquote => n.attrs == map[] && forall c :: c in n.content ==> CanonicalBlock(c)
    case Panel =>
      && CanonicalKind(n.attrs)
      && StolenTitle(n.content) == ""
      && PanelLast(n.content)
      && forall c :: c in n.content ==> CanonicalBlock(c)
    case CodeBlock => n == Block(CodeBlock, map[], [])
    case TaskList => n.attrs == map["localId" := Str("")] && forall c :: c in n.content ==> CanonicalTask(c)
    case Rule => n == Leaf(Rule, map[])
    case _ => false
  }

  ghost predicate CanonicalDoc(doc: Node) {
    && doc == Block(Doc, map[], doc.content)
    && doc.content != []
    && forall c :: c in doc.content ==> CanonicalBlock(c)
  }

  // ---- inline content ----

  lemma OrderedKeeps(link: string, code: bool, strong: bool, em: bool)
    requires SafeHref(link) == link
    ensures SettleMarks(MarksInOrder(link, code, strong, em)) == MarksInOrder(link, code, strong, em)
  {
    var marks := MarksInOrder(link, code, strong, em);
    OrderedHas(link, code, strong, em);
    OrderedLink(link, code, strong, em);
  }

  lemma OrderedHas(link: string, code: bool, strong: bool, em: bool)
    ensures var marks := MarksInOrder(link, code, strong, em);
            HasMark(marks, Code) == code && HasMark(marks, Strong) == strong && HasMark(marks, Em) == em
  {
    var marks := MarksInOrder(link, code, strong, em);
    var l := if link == "" then 0 else 1;
    var c, s := if code then 1 else 0, if strong then 1 else 0;
    if code { assert marks[l].kind == Code; }
    if strong { assert marks[l + c].kind == Strong; }
    if em { assert marks[l + c + s].kind == Em; }
  }

  lemma OrderedLink(link: string, code: bool, strong: bool, em: bool)
    requires SafeHref(link) == link
    ensures LinkOf(MarksInOrder(link, code, strong, em)) == link
  {
    hide SafeHref;
    var m0 := MarksInOrder(link, false, false, false);
    var m1 := MarksInOrder(link, code, false, false);
    var m2 := MarksInOrder(link, code, strong, false);
    var m3 := MarksInOrder(link, code, strong, em);
    if link != "" { assert m0 == [Mark(Link, map["href" := Str(link)])]; }
    assert LinkOf(m0) == link;
    if code { assert m1 == m0 + [Mark(Code, map[])]; ActiveSnoc(m0, Mark(Code, map[])); }
    assert LinkOf(m1) == link;
    if strong { assert m2 == m1 + [Mark(Strong, map[])]; ActiveSnoc(m1, Mark(Strong, map[])); }
    assert LinkOf(m2) == link;
    if em { assert m3 == m2 + [Mark(Em, map[])]; ActiveSnoc(m2, Mark(Em, map[])); }
  }

  lemma MarksSettle(marks: seq<Mark>)
    ensures SettleMarks(marks) == marks <==> CanonicalMarks(marks)
  {
    if CanonicalMarks(marks) {
      var link, code, strong, em :| marks == MarksInOrder(link, code, strong, em) && SafeHref(link) == link;
      OrderedKeeps(link, code, strong, em);
    }
  }

  lemma MentionSettles(n: Node)
    requires n.kind == Mention
    ensures SettleMention(n.attrs) == [n] <==> CanonicalLeaf(n)
  {
    var id, text := StrAttr(n.attrs, "id"), StrAttr(n.attrs, "text");
    var name := TrimAt(text);
    if id != "" {
      var plain, named := map["id" := Str(id)], map["id" := Str(id), "text" := Str("@" + TrimSpace(name))];
      assert StrAttr(plain, "text") == "" && StrAttr(named, "text") == "@" + TrimSpace(name);
      if n.attrs == plain {
        assert text == "" && name == "";
      }
      if "@" < text {
        assert name == text[1..] && text == "@" + name;
      }
      if n.attrs == named {
        assert text == "@" + TrimSpace(name);
        assert name == TrimSpace(name);
      }
    }
  }

  lemma ColourKept(colour: string)
    requires StatusColour(colour)
    ensures ToLower(TrimSpace(colour)) == colour
  {
    ColourReads(colour);
    PlainReads(colour);
  }

  lemma StatusSettles(n: Node)
    requires n.kind == Status
    ensures SettleLeaf(n) == [n] <==> CanonicalLeaf(n)
  {
    hide TrimSpace, ToLower, StatusColour;
    var colour := StrAttr(n.attrs, "color");
    if StatusColour(colour) {
      ColourKept(colour);
    }
    var settled := SettleStatus(n.attrs);
    assert StrAttr(settled.attrs, "text") == TrimSpace(StrAttr(n.attrs, "text"));
    assert StrAttr(settled.attrs, "color") == PanelStatusColour(n.attrs);
  }

  lemma LeafSettles(n: Node)
    requires InlineKind(n.kind) && PlainRun(n).None?
    ensures SettleLeaf(n) == [n] <==> CanonicalLeaf(n)
    ensures |SettleLeaf(n)| <= 1
  {
    hide SettleMention, SettleStatus, SettleMarks, CanonicalMarks, CanonicalMention, CanonicalStatus, CanonicalDate, SettleDate, Moment, Blank;
    match n.kind
    case Text => MarksSettle(n.marks);
    case Mention => MentionSettles(n); MentionSize(n.attrs);
    case Status => StatusSettles(n);
    case HardBreak =>
    case Date => DateSettles(n);
  }

  lemma MentionSize(attrs: Attrs)
    ensures |SettleMention(attrs)| <= 1
  {
  }

  /** The beginning of a day, written in decimal, is the moment of the date it is written in. */
  lemma MomentOf(c: Civil)
    requires Valid(c) && FourDigitYear(c.year)
    ensures Moment(map["timestamp" := Str(IntText(Midnight(c)))]) == Some(Midnight(c))
  {
    hide Midnight, IntText, Atoi;
    MidnightFits(c);
    AtoiOfIntText(Midnight(c));
  }

  /** A date comes back exactly when it is the moment that a day of four-digit years begins with. */
  lemma DateSettles(n: Node)
    requires n.kind == Date
    ensures SettleLeaf(n) == [n] <==> CanonicalLeaf(n)
    ensures |SettleLeaf(n)| <= 1
  {
    hide Moment, Midnight, DayAt, IntText;
    if Moment(n.attrs).Some? {
      var day := DayAt(Moment(n.attrs).value);
      MidnightOf(Moment(n.attrs).value);
      if FourDigitYear(day.year) {
        MomentOf(day);
      }
    }
  }

  /** Settling never adds nodes, apart from the run before them. */
  lemma {:induction false} SettleSize(run: string, ns: seq<Node>)
    requires AllInline(ns)
    ensures |SettleInline(run, ns)| <= |ns| + if Blank(run) then 0 else 1
    decreases |ns|
  {
    hide PlainRun, SettleLeaf, CanonicalLeaf;
    if ns != [] {
      assert ns[0] in ns;
      if PlainRun(ns[0]).Some? {
        SettleSize(run + PlainRun(ns[0]).value, ns[1..]);
      } else {
        LeafSettles(ns[0]);
        SettleSize("", ns[1..]);
      }
    }
  }

  /** A run that is not joined by the next node settles on its own. */
  lemma RunEnds(run: string, ns: seq<Node>)
    requires ns == [] || PlainRun(ns[0]).None?
    ensures SettleInline(run, ns) == TextOf(run) + SettleInline("", ns)
  {
    hide PlainRun, SettleLeaf;
    if ns == [] {
      assert TextOf(run) + [] == TextOf(run);
    } else {
      var rest := SettleLeaf(ns[0]) + SettleInline("", ns[1..]);
      assert TextOf("") == [] && [] + SettleLeaf(ns[0]) == SettleLeaf(ns[0]);
      assert SettleInline("", ns) == rest;
      assert TextOf(run) + SettleLeaf(ns[0]) + SettleInline("", ns[1..]) == TextOf(run) + rest;
    }
  }

  lemma PlainTextLeaf(n: Node)
    requires n.kind == Kind.Text && SettleMarks(n.marks) == []
    ensures CanonicalLeaf(n) <==> n == TextNode(n.text, []) && !Blank(n.text)
    ensures CanonicalLeaf(n) ==> Unmarked(n)
  {
    hide Blank;
    MarksSettle(n.marks);
    assert SettleMarks([]) == [];
    MarksSettle([]);
  }

  /** A canonical leaf is part of a run of characters exactly when it is an unmarked text. */
  lemma CanonicalRun(n: Node)
    requires CanonicalLeaf(n)
    ensures PlainRun(n).Some? <==> Unmarked(n)
    ensures Unmarked(n) ==> PlainRun(n) == Some(n.text) && TextOf(n.text) == [n]
  {
    hide Blank, Moment, DayAt, IntText, SettleMarks, CanonicalMarks;
    if n.kind == Kind.Text {
      MarksSettle(n.marks);
      NoMarks();
    }
  }

  lemma NoMarks()
    ensures SettleMarks([]) == []
  {
  }

  lemma {:induction false} CanonicalKept(ns: seq<Node>)
    requires CanonicalInline(ns)
    ensures SettleInline("", ns) == ns
    decreases |ns|
  {
    hide PlainRun, SettleLeaf, CanonicalLeaf, Unmarked, TextOf;
    if ns == [] {
      EmptyRun();
    } else {
      var n, rest := ns[0], ns[1..];
      assert n in ns;
      CanonicalRun(n);
      assert CanonicalInline(rest) by {
        assert forall i :: 0 < i < |rest| ==> rest[i - 1] == ns[i] && rest[i] == ns[i + 1];
      }
      CanonicalKept(rest);
      if rest != [] {
        assert rest[0] == ns[1] && ns[1] in ns;
        CanonicalRun(rest[0]);
      }
      if Unmarked(n) {
        assert "" + n.text == n.text;
        RunEnds(n.text, rest);
      } else {
        CanonicalShape(n);
        LeafSettles(n);
        EmptyRun();
        assert SettleInline("", ns) == TextOf("") + SettleLeaf(n) + SettleInline("", rest);
      }
      assert ns == [n] + rest;
    }
  }

  lemma EmptyRun()
    ensures TextOf("") == []
  {
  }

  lemma CanonicalShape(n: Node)
    requires CanonicalLeaf(n)
    ensures InlineKind(n.kind)
  {
  }

  /** Content that settles to itself starts with a canonical leaf, and the rest settles to itself. */
  lemma SettledHead(ns: seq<Node>)
    requires AllInline(ns) && ns != [] && SettleInline("", ns) == ns
    ensures CanonicalLeaf(ns[0]) && SettleInline("", ns[1..]) == ns[1..]
    ensures Unmarked(ns[0]) && |ns| > 1 ==> PlainRun(ns[1]).None?
  {
    hide PlainRun, SettleLeaf, CanonicalLeaf, Unmarked, SettleInline;
    if PlainRun(ns[0]).Some? {
      SettledRunHead(ns);
    } else {
      SettledLeafHead(ns);
    }
  }

  lemma SettledRunHead(ns: seq<Node>)
    requires AllInline(ns) && ns != [] && SettleInline("", ns) == ns && PlainRun(ns[0]).Some?
    ensures CanonicalLeaf(ns[0]) && SettleInline("", ns[1..]) == ns[1..]
    ensures |ns| > 1 ==> PlainRun(ns[1]).None?
  {
    hide PlainRun, SettleLeaf, CanonicalLeaf, TextOf;
    var n, rest, run := ns[0], ns[1..], PlainRun(ns[0]).value;
    RestInline(ns);
    assert "" + run == run;
    assert SettleInline("", ns) == SettleInline(run, rest);
    if rest != [] && PlainRun(rest[0]).Some? {
      RestInline(rest);
      SettleSize(run + PlainRun(rest[0]).value, rest[1..]);
    } else {
      hide SettleInline;
      RunEnds(run, rest);
      SettleSize("", rest);
      TextOfSize(run);
      assert |TextOf(run)| == 1 && ns[..1] == TextOf(run);
      assert ns == TextOf(run) + SettleInline("", rest);
      PlainTextNode(n, run);
    }
  }

  lemma TextOfSize(run: string)
    ensures |TextOf(run)| <= 1
    ensures |TextOf(run)| == 1 ==> TextOf(run) == [TextNode(run, [])] && !Blank(run)
  {
  }

  lemma RestInline(ns: seq<Node>)
    requires AllInline(ns) && ns != []
    ensures AllInline(ns[1..]) && InlineKind(ns[0].kind)
  {
    assert ns[0] in ns && forall c :: c in ns[1..] ==> c in ns;
  }

  lemma SettledLeafHead(ns: seq<Node>)
    requires AllInline(ns) && ns != [] && SettleInline("", ns) == ns && PlainRun(ns[0]).None?
    ensures CanonicalLeaf(ns[0]) && SettleInline("", ns[1..]) == ns[1..] && !Unmarked(ns[0])
  {
    hide PlainRun, SettleLeaf, CanonicalLeaf, Unmarked;
    var n, rest := ns[0], ns[1..];
    RestInline(ns);
    LeafSettles(n);
    EmptyRun();
    SettleSize("", rest);
    assert SettleInline("", ns) == SettleLeaf(n) + SettleInline("", rest);
    assert |SettleLeaf(n)| == 1 && ns[..1] == SettleLeaf(n);
    NotUnmarked(n);
  }

  lemma NotUnmarked(n: Node)
    requires InlineKind(n.kind) && PlainRun(n).None?
    ensures !Unmarked(n)
  {
    NoMarks();
  }

  lemma PlainTextNode(n: Node, run: string)
    requires n == TextNode(run, []) && !Blank(run)
    ensures CanonicalLeaf(n)
  {
    NoMarks();
    PlainTextLeaf(n);
  }

  lemma {:induction false} SettledIsCanonical(ns: seq<Node>)
    requires AllInline(ns) && SettleInline("", ns) == ns
    ensures CanonicalInline(ns)
    decreases |ns|
  {
    hide PlainRun, SettleLeaf, CanonicalLeaf, SettleInline;
    if ns != [] {
      var rest := ns[1..];
      SettledHead(ns);
      SettledIsCanonical(rest);
      assert forall c :: c in ns ==> c == ns[0] || c in rest;
      if |ns| > 1 && Unmarked(ns[0]) {
        assert ns[1] in rest;
        CanonicalRun(ns[1]);
      }
      forall i | 0 < i < |ns| ensures !(Unmarked(ns[i - 1]) && Unmarked(ns[i])) {
        if i > 1 {
          assert ns[i - 1] == rest[i - 2] && ns[i] == rest[i - 1];
        }
      }
    }
  }

  /** Inline content is kept exactly when it is canonical. */
  lemma InlineKept(ns: seq<Node>)
    requires AllInline(ns)
    ensures SettleInline("", ns) == ns <==> CanonicalInline(ns)
  {
    hide SettleInline, CanonicalInline;
    if CanonicalInline(ns) {
      CanonicalKept(ns);
    }
    if SettleInline("", ns) == ns {
      SettledIsCanonical(ns);
    }
  }

  // ---- blocks ----

  lemma KindOfWord(word: string)
    requires PanelKind(word) || word == "custom"
    ensures (if word in PANEL_KINDS then PANEL_KINDS[word] else "custom") == word
  {
  }

  lemma SettledKinds(attrs: Attrs)
    ensures PanelKind(SettledKind(attrs)) || SettledKind(attrs) == "custom"
  {
    hide ToLower, TrimSpace, StrAttr;
  }

  /** A kind by which a panel is read comes back as itself. */
  lemma KindSettles(attrs: Attrs)
    ensures var kind := StrAttr(attrs, "panelType");
            PanelKind(kind) || kind == "custom" ==> SettledKind(attrs) == kind
    ensures PanelKind(SettledKind(attrs)) || SettledKind(attrs) == "custom"
  {
    SettledKinds(attrs);
    hide ToLower, TrimSpace, StrAttr, PlainName, PanelKind;
    var kind := StrAttr(attrs, "panelType");
    if PanelKind(kind) || kind == "custom" {
      KindName(kind);
      PlainReads(kind);
      KindOfWord(kind);
    }
  }

  lemma KindKept(attrs: Attrs)
    ensures attrs == map["panelType" := Str(SettledKind(attrs))] <==> CanonicalKind(attrs)
  {
    hide PanelKind, SettledKind;
    KindSettles(attrs);
  }

  lemma KindName(kind: string)
    requires PanelKind(kind) || kind == "custom"
    ensures PlainName(kind)
  {
  }

  // ---- panels that keep their content ----

  /** A node is kept whole exactly when nothing stands behind a panel in it. */
  lemma {:induction false} PanelLastIs(ns: seq<Node>)
    ensures PanelLast(ns) <==> CutNodes(ns) == ns
    decreases ns
  {
    hide HasPanel, CutNode;
    if ns != [] {
      var rest := ns[1..];
      PanelLastStep(ns);
      assert ns == [ns[0]] + rest;
      if HasPanel(ns[0]) {
        PanelLastIs(ns[0].content);
        hide PanelLast, CutNodes;
        CutWhole(ns[0]);
        assert rest == [] ==> ns == [ns[0]];
      } else {
        PanelLastIs(rest);
        assert ([ns[0]] + CutNodes(rest))[1..] == CutNodes(rest);
      }
    }
  }

  lemma PanelLastStep(ns: seq<Node>)
    requires ns != []
    ensures PanelLast(ns) <==> if HasPanel(ns[0]) then ns[1..] == [] && PanelLast(ns[0].content) else PanelLast(ns[1..])
  {
    hide HasPanel;
    var rest := ns[1..];
    assert forall i :: 0 <= i < |rest| ==> rest[i] == ns[i + 1];
    assert forall i :: 0 < i < |ns| ==> ns[i] == rest[i - 1];
  }

  lemma CutWhole(n: Node)
    ensures CutNode(n) == n <==> CutNodes(n.content) == n.content
  {
    hide CutNodes;
    var cut := CutNode(n);
    assert cut == n.(content := CutNodes(n.content));
  }

  /** Blocks that settle to themselves once they are cut have nothing cut off. */
  lemma {:induction false} CutKept(ns: seq<Node>)
    requires (forall c :: c in ns ==> BlockShape(c)) && SettleBlocks(CutNodes(ns)) == ns
    ensures CutNodes(ns) == ns
    decreases ns, 1
  {
    hide BlockShape, HasPanel, CutNode, CutNodes, SettleBlock, SettleBlocks;
    if ns == [] {
      NothingCut();
    } else {
      HeadsStep(ns);
      var rest := ns[1..];
      assert ns == [ns[0]] + rest;
      if HasPanel(ns[0]) {
        SettlesOne(CutNode(ns[0]));
        NodeCutKept(ns[0]);
      } else {
        SettlesJoined(ns[0], CutNodes(rest));
        assert ([SettleBlock(ns[0])] + SettleBlocks(CutNodes(rest)))[1..] == SettleBlocks(CutNodes(rest));
        CutKept(rest);
      }
    }
  }

  lemma NothingCut()
    ensures CutNodes([]) == []
  {
  }

  lemma {:induction false} NodeCutKept(n: Node)
    requires BlockShape(n) && HasPanel(n) && SettleBlock(CutNode(n)) == n
    ensures CutNode(n) == n
    decreases n, 0
  {
    BlocksAreLoose(n);
    LooseCarrier(n);
    CutWhole(n);
    hide HasPanel, CutNodes, SettleBlocks, SettleItems, PanelTitle, StolenTitle, SettledKind;
    match n.kind
    case Panel =>
      CutTwice(n.content);
      ShapeInside(n);
      KeptWhole(StolenTitle(CutNodes(n.content)), n.content);
    case Blockquote => CutKept(n.content);
    case BulletList => CutItemsKept(n.content);
    case OrderedList => CutItemsKept(n.content);
  }

  lemma {:induction false} CutItemsKept(items: seq<Node>)
    requires forall c :: c in items ==> c.kind == ListItem && ListShape(c)
    requires SettleItems(CutNodes(items)) == items
    ensures CutNodes(items) == items
    decreases items, 1
  {
    hide BlockShape, HasPanel, CutNode, CutNodes, SettleBlocks, SettleItems, ItemOf, ListShape;
    if items == [] {
      NothingCut();
    } else {
      HeadsStep(items);
      var item, rest := items[0], items[1..];
      assert items == [item] + rest;
      if HasPanel(item) {
        SettlesOne(CutNode(item));
        CutItem(item);
        ItemInside(item);
        ItemCutKept(item);
        CutKept(item.content);
        CutWhole(item);
      } else {
        SettlesJoined(item, CutNodes(rest));
        assert ([ItemOf(SettleBlocks(item.content))] + SettleItems(CutNodes(rest)))[1..] == SettleItems(CutNodes(rest));
        CutItemsKept(rest);
      }
    }
  }

  lemma ShapeInside(n: Node)
    requires BlockShape(n) && n.kind in {Blockquote, Panel}
    ensures forall c :: c in n.content ==> BlockShape(c)
  {
  }

  lemma ItemInside(item: Node)
    requires ListShape(item)
    ensures forall c :: c in item.content ==> BlockShape(c)
  {
    hide BlockShape;
  }

  lemma ItemCutKept(item: Node)
    requires item.kind == ListItem && HasPanel(item) && ItemOf(SettleBlocks(CutNodes(item.content))) == item
    ensures SettleBlocks(CutNodes(item.content)) == item.content
  {
    assert item.content != [];
    hide SettleBlocks, HasPanel;
  }

  /** A paragraph put before what the blocks settle to is never what stood there. */
  lemma {:induction false} NeverBehind(first: Node, ns: seq<Node>)
    requires first.kind == Paragraph && forall c :: c in ns ==> BlockShape(c)
    ensures ns != [first] + SettleBlocks(CutNodes(ns))
    decreases |ns|
  {
    hide CutNodes, SettleBlocks, BlockShape, HasPanel, SettleBlock;
    if ns != [] && ns[0] == first {
      ParagraphFree(first);
      HeadsStep(ns);
      ParagraphStays(first);
      SettlesJoined(first, CutNodes(ns[1..]));
      NeverBehind(SettleBlock(first), ns[1..]);
      var rest := SettleBlocks(CutNodes(ns[1..]));
      assert ([first] + ([SettleBlock(first)] + rest))[1..] == [SettleBlock(first)] + rest;
    }
  }

  lemma ParagraphFree(n: Node)
    requires n.kind == Paragraph && BlockShape(n)
    ensures !HasPanel(n)
  {
    InlineHoldsNone(n.content);
  }

  lemma ParagraphStays(n: Node)
    requires n.kind == Paragraph
    ensures SettleBlock(n).kind == Paragraph
  {
  }

  lemma {:induction false} KeptWhole(title: string, ns: seq<Node>)
    requires (forall c :: c in ns ==> BlockShape(c)) && PanelTitle(title) + SettleBlocks(CutNodes(ns)) == ns
    ensures title == "" && CutNodes(ns) == ns
    decreases ns, 2
  {
    hide CutNodes, SettleBlocks, BlockShape;
    if title == "" {
      assert PanelTitle(title) + SettleBlocks(CutNodes(ns)) == SettleBlocks(CutNodes(ns));
      CutKept(ns);
    } else {
      var paragraph := Block(Paragraph, map[], [TextNode(title, [Mark(Strong, map[])])]);
      assert PanelTitle(title) == [paragraph];
      NeverBehind(paragraph, ns);
    }
  }

  lemma PanelKept(n: Node)
    requires n.kind == Panel && BlockShape(n)
    requires SettleBlocks(n.content) == n.content <==> forall c :: c in n.content ==> CanonicalBlock(c)
    ensures SettleBlock(n) == n <==> CanonicalBlock(n)
  {
    hide CanonicalKind, SettledKind, PanelTitle, StolenTitle, SettleBlocks, CutNodes, SettleBlock, PanelLast, HasPanel;
    PanelSettles(n);
    ShapeInside(n);
    hide BlockShape;
    KindKept(n.attrs);
    PanelLastIs(n.content);
    var title := StolenTitle(n.content);
    if PanelTitle(title) + SettleBlocks(CutNodes(n.content)) == n.content {
      KeptWhole(title, n.content);
    }
    NoTitleAdds(SettleBlocks(n.content));
  }

  lemma NoTitleAdds(settled: seq<Node>)
    ensures PanelTitle("") + settled == settled
  {
  }

  // ---- code blocks ----

  /** References are three or four characters longer than what they stand for. */
  lemma {:induction false} UnescapeShrinks(s: string)
    ensures |UnescapeString(s)| == |s| || |UnescapeString(s)| + 3 <= |s|
  {
    if s != "" {
      UnescapeShrinks(s[Reference(s).1..]);
    }
  }

  lemma OnePiece(n: Node)
    requires n.text == "" && |n.content| == 1 && n.content == [TextNode(n.content[0].text, [])]
    ensures CollectText(n) == if n.content[0].text == "" then "" else n.content[0].text + "\n"
  {
    var piece := n.content[0];
    assert n.content[1..] == [] && CollectTexts([]) == "" && piece.content == [];
    assert CollectTexts(n.content) == CollectText(piece) + CollectTexts([]);
  }

  lemma NoCode()
    ensures TextOf(UnescapeString("")) == []
  {
  }

  /** Code that holds anything comes back with its line end. */
  lemma CodeKept(n: Node)
    requires n.kind == CodeBlock
    ensures SettleBlock(n) == n <==> CanonicalBlock(n)
  {
    hide UnescapeString, CollectText;
    NoCode();
    if SettleBlock(n) == n && n.content != [] {
      UnescapeShrinks(CollectText(n));
      OnePiece(n);
    }
    if n == Block(CodeBlock, map[], []) { NothingIn(n); }
  }

  lemma NothingIn(n: Node)
    requires n.text == "" && n.content == []
    ensures CollectText(n) == ""
  {
  }

  lemma {:induction false} BlockKept(n: Node)
    requires BlockShape(n)
    ensures SettleBlock(n) == n <==> CanonicalBlock(n)
    decreases n, 0
  {
    hide SettleInline, CanonicalInline, CanonicalTask, CanonicalItem, HasPanel, StolenTitle, PanelTitle, SettledKind, CanonicalKind, Level, ListShape, PanelLast, CutNodes, CollectText, UnescapeString;
    match n.kind
    case Paragraph => InlineKept(n.content);
    case Heading => InlineKept(n.content);
    case BulletList => ItemsKept(n.content);
    case OrderedList => ItemsKept(n.content);
    case Blockquote => BlocksKept(n.content);
    case Panel =>
      ShapeInside(n);
      BlocksKept(n.content);
      PanelKept(n);
    case CodeBlock => CodeKept(n);
    case TaskList => TasksKept(n.content, 0);
    case Rule =>
  }

  lemma {:induction false} BlocksKept(ns: seq<Node>)
    requires forall c :: c in ns ==> BlockShape(c)
    ensures SettleBlocks(ns) == ns <==> forall c :: c in ns ==> CanonicalBlock(c)
    decreases ns, 1
  {
    hide SettleBlock, CanonicalBlock, BlockShape;
    if ns != [] {
      BlockKept(ns[0]);
      BlocksKept(ns[1..]);
      assert ns == [ns[0]] + ns[1..];
      assert SettleBlocks(ns)[0] == SettleBlock(ns[0]) && SettleBlocks(ns)[1..] == SettleBlocks(ns[1..]);
    }
  }

  lemma {:induction false} ItemKept(item: Node)
    requires item.kind == ListItem && ListShape(item)
    ensures ItemOf(SettleBlocks(item.content)) == item <==> CanonicalItem(item)
    decreases item, 0
  {
    hide SettleBlock, CanonicalBlock, BlockShape, SettleBlocks;
    BlocksKept(item.content);
  }

  lemma {:induction false} ItemsKept(ns: seq<Node>)
    requires forall c :: c in ns ==> c.kind == ListItem && ListShape(c)
    ensures SettleItems(ns) == ns <==> forall c :: c in ns ==> CanonicalItem(c)
    decreases ns, 1
  {
    hide SettleBlocks, CanonicalItem, ListShape, ItemOf;
    if ns != [] {
      ItemKept(ns[0]);
      ItemsKept(ns[1..]);
      assert ns == [ns[0]] + ns[1..];
      var settled := SettleItems(ns);
      assert settled[0] == ItemOf(SettleBlocks(ns[0].content)) && settled[1..] == SettleItems(ns[1..]);
    }
  }

  lemma PlaceIsKept(place: nat)
    ensures TrimSpace(Itoa(place)) == Itoa(place) && Itoa(place) != ""
  {
    var s := Itoa(place);
    assert s[0] in s && s[|s| - 1] in s;
    assert !IsSpace(s[0]) && !IsSpace(s[|s| - 1]);
  }

  lemma TaskAttrsKept(item: Node, place: nat)
    requires item.kind == TaskItem
    ensures var id, state := StrAttr(item.attrs, "localId"), StrAttr(item.attrs, "state");
            SettleTask(item, place).attrs == item.attrs <==>
            item.attrs == map["localId" := Str(id), "state" := Str(state)] &&
            id != "" && TrimSpace(id) == id && (state == "TODO" || state == "DONE")
  {
    hide TrimSpace, Itoa, SettleInline;
    var id, state := StrAttr(item.attrs, "localId"), StrAttr(item.attrs, "state");
    PlaceIsKept(place + 1);
    var settled := SettleTask(item, place).attrs;
    assert StrAttr(settled, "localId") == TrimSpace(if id == "" then Itoa(place + 1) else id);
    assert StrAttr(settled, "state") == if TaskState(item.attrs) == "complete" then "DONE" else "TODO";
    assert TaskState(item.attrs) == "complete" <==> "state" in item.attrs && item.attrs["state"] == Str("DONE");
  }

  lemma TaskKept(item: Node, place: nat)
    requires item.kind == TaskItem && AllInline(item.content)
    ensures SettleTask(item, place) == item <==> CanonicalTask(item)
  {
    hide SettleInline, CanonicalInline, StrAttr, TrimSpace;
    InlineKept(item.content);
    TaskAttrsKept(item, place);
  }

  lemma {:induction false} TasksKept(items: seq<Node>, place: nat)
    requires forall c :: c in items ==> c.kind == TaskItem && AllInline(c.content)
    ensures SettleTasks(items, place) == items <==> forall c :: c in items ==> CanonicalTask(c)
    decreases |items|
  {
    hide SettleTask, CanonicalTask, AllInline;
    if items != [] {
      TaskKept(items[0], place);
      TasksKept(items[1..], place + 1);
      assert items == [items[0]] + items[1..];
      var settled := SettleTasks(items, place);
      assert settled[0] == SettleTask(items[0], place) && settled[1..] == SettleTasks(items[1..], place + 1);
    }
  }

  // ---- canonical documents are of the blocks that are modelled ----

  lemma InlineShape(ns: seq<Node>)
    requires CanonicalInline(ns)
    ensures AllInline(ns)
  {
    hide CanonicalLeaf, InlineKind;
    forall n | n in ns ensures InlineKind(n.kind) { CanonicalShape(n); }
  }

  lemma {:induction false} BlockIsShaped(n: Node)
    requires CanonicalBlock(n)
    ensures BlockShape(n)
    decreases n
  {
    hide CanonicalInline, AllInline, CanonicalKind, StolenTitle, PanelLast, Level, Bare;
    match n.kind
    case Paragraph => InlineShape(n.content);
    case Heading => InlineShape(n.content);
    case BulletList => forall c | c in n.content ensures ListShape(c) { ItemIsShaped(c); }
    case OrderedList => forall c | c in n.content ensures ListShape(c) { ItemIsShaped(c); }
    case Blockquote => forall c | c in n.content ensures BlockShape(c) { BlockIsShaped(c); }
    case Panel => forall c | c in n.content ensures BlockShape(c) { BlockIsShaped(c); }
    case TaskList => forall c | c in n.content ensures AllInline(c.content) { InlineShape(c.content); }
    case _ =>
  }

  lemma {:induction false} ItemIsShaped(item: Node)
    requires CanonicalItem(item)
    ensures ListShape(item)
    decreases item
  {
    hide CanonicalBlock, BlockShape;
    forall c | c in item.content ensures BlockShape(c) { BlockIsShaped(c); }
  }

  lemma DocIsShaped(doc: Node)
    requires CanonicalDoc(doc)
    ensures Shape(doc)
  {
    hide CanonicalBlock, BlockShape;
    forall c | c in doc.content ensures BlockShape(c) { BlockIsShaped(c); }
  }

  // ---- whole documents ----

  /**
   * The round trip, exactly: of all documents, those and only those that are canonical come back
   * from their storage markup unchanged.
   */
  lemma RoundTripsExactly(doc: Node)
    ensures FromHtml(ToStorage(doc)) == doc <==> CanonicalDoc(doc)
  {
    hide FromHtml, ToStorage, BlockShape, CanonicalBlock, SettleBlocks;
    if FromHtml(ToStorage(doc)) == doc { ReadsBlocks(ToStorage(doc)); }
    if CanonicalDoc(doc) { DocIsShaped(doc); }
    if Shape(doc) {
      ReadsSettled(doc);
      BlocksKept(doc.content);
    }
  }

  /** What is read from any markup, printed and read again, is its settled form. */
  lemma ReadAgain(source: string)
    ensures FromHtml(ToStorage(FromHtml(source))) == Settled(FromHtml(source))
  {
    hide FromHtml, ToStorage, Shape, Settled;
    ReadsBlocks(source);
    ReadsSettled(FromHtml(source));
  }
}
