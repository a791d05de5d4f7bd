/** Gathering inline content into paragraphs keeps the first status, and where a panel is cut. */
module GatherCuts {
  import opened Text
  import opened Adf
  import opened Storage
  import opened Settle
  import opened Gather
  import opened PanelHeads

  // ---- the first status ----

  function Either(a: Option<string>, b: Option<string>): Option<string> {
    if a.Some? then a else b
  }

  lemma {:induction false} StatusJoins(a: seq<Node>, b: seq<Node>)
    ensures FirstStatus(a + b) == Either(FirstStatus(a), FirstStatus(b))
  {
    hide StatusIn;
    if a == [] {
      assert a + b == b;
    } else {
      StatusJoins(a[1..], b);
      assert (a + b)[1..] == a[1..] + b;
    }
  }

  lemma PlainHasNone(n: Node)
    requires PlainRun(n).Some?
    ensures StatusIn(n).None?
  {
    hide EmojiText, SettleMarks, Calendar.Moment, FirstStatus;
  }

  lemma {:induction false} LeadStatus(run: seq<Node>)
    ensures FirstStatus(LeadTrimmed(run)) == FirstStatus(run)
  {
    hide PlainRun, Blank, TrimLeft, StatusIn;
    if run != [] && PlainRun(run[0]).Some? {
      PlainHasNone(run[0]);
      var t := PlainRun(run[0]).value;
      if Blank(t) {
        LeadStatus(run[1..]);
      } else {
        TextHasNone(TrimLeft(t));
        assert ([TextNode(TrimLeft(t), [])] + run[1..])[1..] == run[1..];
      }
    }
  }

  lemma TextHasNone(text: string)
    ensures StatusIn(TextNode(text, [])).None?
  {
  }

  lemma OneStatus(n: Node)
    ensures FirstStatus([n]) == StatusIn(n)
  {
    FirstOfOne(n);
  }

  lemma {:induction false} TailStatus(run: seq<Node>)
    ensures FirstStatus(TailTrimmed(run)) == FirstStatus(run)
  {
    hide PlainRun, Blank, TrimRight, StatusIn, FirstStatus;
    var k := |run| - 1;
    if run != [] && PlainRun(run[k]).Some? {
      PlainHasNone(run[k]);
      var t := PlainRun(run[k]).value;
      assert run == run[..k] + [run[k]];
      StatusJoins(run[..k], [run[k]]);
      OneStatus(run[k]);
      if Blank(t) {
        TailStatus(run[..k]);
      } else {
        var x := TextNode(TrimRight(t), []);
        TextHasNone(TrimRight(t));
        OneStatus(x);
        StatusJoins(run[..k], [x]);
      }
    }
  }

  lemma ParagraphStatus(run: seq<Node>)
    ensures FirstStatus(Paragraphs(run)) == FirstStatus(run)
  {
    hide LeadTrimmed, TailTrimmed;
    LeadStatus(run);
    TailStatus(LeadTrimmed(run));
    var p := Block(Paragraph, map[], Trimmed(run));
    OneStatus(p);
    assert StatusIn(p) == FirstStatus(Trimmed(run)) by { hide FirstStatus; }
    assert FirstStatus([]).None?;
  }

  lemma {:induction false} GatheredStatus(n: Node)
    ensures StatusIn(Gathered(n)) == StatusIn(n)
    decreases n, 0
  {
    hide FirstStatus, GatherAll, GatheredItems, Paragraphs;
    match n.kind
    case BulletList => GatheredItemsStatus(n.content);
    case OrderedList => GatheredItemsStatus(n.content);
    case ListItem => NothingFirst(n.content);
    case Blockquote => NothingFirst(n.content);
    case Panel => NothingFirst(n.content);
    case _ =>
  }

  lemma {:induction false} NothingFirst(ns: seq<Node>)
    ensures FirstStatus(GatherAll([], ns)) == FirstStatus(ns)
    decreases ns, 2
  {
    hide StatusIn, GatherAll;
    GatherStatus([], ns);
    assert FirstStatus([]).None?;
  }

  lemma {:induction false} GatheredItemsStatus(items: seq<Node>)
    ensures FirstStatus(GatheredItems(items)) == FirstStatus(items)
    decreases items, 1
  {
    hide StatusIn, Gathered;
    if items != [] {
      GatheredStatus(items[0]);
      GatheredItemsStatus(items[1..]);
      FirstStatusJoins(Gathered(items[0]), GatheredItems(items[1..]));
    }
  }

  lemma {:induction false} GatherStatus(run: seq<Node>, ns: seq<Node>)
    ensures FirstStatus(GatherAll(run, ns)) == Either(FirstStatus(run), FirstStatus(ns))
    decreases ns, 1
  {
    hide StatusIn, Gathered, Paragraphs, InlineKind, FirstStatus;
    ParagraphStatus(run);
    if ns == [] {
      NoneHasNone();
    } else {
      var n, rest := ns[0], ns[1..];
      assert ns == [n] + rest;
      FirstStatusJoins(n, rest);
      if InlineKind(n.kind) {
        GatherStatus(run + [n], rest);
        StatusJoins(run, [n]);
        OneStatus(n);
      } else {
        GatheredStatus(n);
        NothingFirst(rest);
        StatusJoins(Paragraphs(run) + [Gathered(n)], GatherAll([], rest));
        StatusJoins(Paragraphs(run), [Gathered(n)]);
        OneStatus(Gathered(n));
      }
    }
  }

  lemma NoneHasNone()
    ensures FirstStatus([]).None?
  {
  }

  /** A panel's title is taken from the same status. */
  lemma TitleKept(ns: seq<Node>)
    ensures StolenTitle(GatherAll([], ns)) == StolenTitle(ns)
  {
    hide FirstStatus, GatherAll, TrimSpace;
    NothingFirst(ns);
  }

  // ---- panels ----

  lemma {:induction false} GatheredPanel(n: Node)
    ensures HasPanel(Gathered(n)) <==> HasPanel(n)
    decreases n, 0
  {
    HoldsWithin(n);
    HoldsWithin(Gathered(n));
    hide HasPanel, AnyPanel, GatherAll, GatheredItems;
    match n.kind
    case BulletList => GatheredItemsPanel(n.content);
    case OrderedList => GatheredItemsPanel(n.content);
    case ListItem => GatherPanel([], n.content);
    case Blockquote => GatherPanel([], n.content);
    case Panel =>
    case _ =>
  }

  lemma {:induction false} GatheredItemsPanel(items: seq<Node>)
    ensures AnyPanel(GatheredItems(items)) <==> AnyPanel(items)
    decreases items, 1
  {
    hide HasPanel, Gathered, AnyPanel;
    if items != [] {
      GatheredPanel(items[0]);
      GatheredItemsPanel(items[1..]);
      AnyPanelHead(items);
      AnyPanelHead(GatheredItems(items));
      assert GatheredItems(items)[1..] == GatheredItems(items[1..]);
    }
  }

  lemma ParagraphPanel(run: seq<Node>)
    requires AllInline(run)
    ensures !AnyPanel(Paragraphs(run)) && (Paragraphs(run) != [] ==> !HasPanel(Paragraphs(run)[0]))
  {
    TrimmedPrints(run);
    hide Trimmed;
    InlineHoldsNone(Trimmed(run));
    var p := Block(Paragraph, map[], Trimmed(run));
    HoldsWithin(p);
    hide HasPanel, AllInline;
  }

  lemma AnyPanelJoins(a: seq<Node>, b: seq<Node>)
    ensures AnyPanel(a + b) <==> AnyPanel(a) || AnyPanel(b)
  {
    hide HasPanel;
    if AnyPanel(a) {
      var c :| c in a && HasPanel(c);
      assert c in a + b;
    }
    if AnyPanel(b) {
      var c :| c in b && HasPanel(c);
      assert c in a + b;
    }
  }

  lemma InlineSnoc(run: seq<Node>, n: Node)
    requires AllInline(run) && InlineKind(n.kind)
    ensures AllInline(run + [n])
  {
    hide InlineKind;
  }

  lemma InlineHasNoPanel(n: Node)
    requires InlineKind(n.kind)
    ensures !HasPanel(n)
  {
  }

  lemma {:induction false} GatherPanel(run: seq<Node>, ns: seq<Node>)
    requires AllInline(run)
    ensures AnyPanel(GatherAll(run, ns)) <==> AnyPanel(ns)
    decreases ns, 1
  {
    hide HasPanel, Gathered, Paragraphs, InlineKind, AnyPanel, AllInline;
    ParagraphPanel(run);
    if ns == [] {
      NoPanelInNone();
    } else {
      var n, rest := ns[0], ns[1..];
      AnyPanelHead(ns);
      if InlineKind(n.kind) {
        InlineSnoc(run, n);
        GatherPanel(run + [n], rest);
        InlineHasNoPanel(n);
      } else {
        GatheredPanel(n);
        NoneInline();
        GatherPanel([], rest);
        AnyPanelJoins(Paragraphs(run) + [Gathered(n)], GatherAll([], rest));
        AnyPanelJoins(Paragraphs(run), [Gathered(n)]);
        AnyPanelHead([Gathered(n)]);
        assert [Gathered(n)][1..] == [];
        NoPanelInNone();
      }
    }
  }

  lemma NoPanelInNone()
    ensures !AnyPanel([])
  {
  }

  lemma NoneInline()
    ensures AllInline([])
  {
  }

  // ---- cutting ----

  lemma CutsBehind(ps: seq<Node>, ns: seq<Node>)
    requires |ps| <= 1 && (ps != [] ==> !HasPanel(ps[0]))
    ensures CutNodes(ps + ns) == ps + CutNodes(ns)
  {
    hide HasPanel, CutNode;
    if ps == [] {
      assert ps + ns == ns;
    } else {
      assert (ps + ns)[1..] == ns && ps == [ps[0]];
    }
  }

  lemma CutsAt(n: Node, ns: seq<Node>)
    ensures CutNodes([n] + ns) == if HasPanel(n) then [CutNode(n)] else [n] + CutNodes(ns)
  {
    hide HasPanel, CutNode;
    assert ([n] + ns)[1..] == ns;
  }

  function GatheredContent(kind: Kind, content: seq<Node>): seq<Node> {
    if kind == BulletList || kind == OrderedList then GatheredItems(content)
    else if kind == ListItem || kind == Blockquote || kind == Panel then GatherAll([], content)
    else content
  }

  lemma GatheredIs(n: Node)
    ensures Gathered(n) == n.(content := GatheredContent(n.kind, n.content))
  {
    hide GatherAll, GatheredItems;
  }

  lemma CutIs(n: Node)
    ensures CutNode(n) == n.(content := CutNodes(n.content))
  {
    hide CutNodes;
  }

  lemma {:induction false} GatheredCut(n: Node)
    ensures CutNode(Gathered(n)) == Gathered(CutNode(n))
    decreases n, 0
  {
    ContentCut(n.kind, n.content);
    GatheredIs(n);
    GatheredIs(CutNode(n));
    CutIs(n);
    CutIs(Gathered(n));
    hide CutNode, Gathered, CutNodes, GatheredContent;
  }

  lemma {:induction false} ContentCut(kind: Kind, content: seq<Node>)
    ensures CutNodes(GatheredContent(kind, content)) == GatheredContent(kind, CutNodes(content))
    decreases content, 2
  {
    hide CutNodes, GatherAll, GatheredItems;
    NoneInline();
    if kind == BulletList || kind == OrderedList {
      GatheredItemsCut(content);
    } else if kind == ListItem || kind == Blockquote || kind == Panel {
      GatherCut([], content);
    }
  }

  lemma {:induction false} GatheredItemsCut(items: seq<Node>)
    ensures CutNodes(GatheredItems(items)) == GatheredItems(CutNodes(items))
    decreases items, 1
  {
    hide HasPanel, CutNode, Gathered;
    if items != [] {
      var n := items[0];
      GatheredItemsCut(items[1..]);
      GatheredPanel(n);
      GatheredCut(n);
      hide CutNodes;
      assert items == [n] + items[1..];
      CutsAt(n, items[1..]);
      CutsAt(Gathered(n), GatheredItems(items[1..]));
      ItemsJoin(n, CutNodes(items[1..]));
      ItemsJoin(CutNode(n), []);
      assert [CutNode(n)] + [] == [CutNode(n)] && [Gathered(CutNode(n))] + [] == [Gathered(CutNode(n))];
    }
  }

  lemma ItemsJoin(n: Node, items: seq<Node>)
    ensures GatheredItems([n] + items) == [Gathered(n)] + GatheredItems(items)
    ensures GatheredItems([]) == []
  {
    hide Gathered;
    assert ([n] + items)[1..] == items;
  }

  lemma GatherInline(run: seq<Node>, n: Node, ns: seq<Node>)
    requires InlineKind(n.kind)
    ensures GatherAll(run, [n] + ns) == GatherAll(run + [n], ns)
  {
    hide Paragraphs, Gathered;
    assert ([n] + ns)[1..] == ns;
  }

  lemma GatherBlock(run: seq<Node>, n: Node, ns: seq<Node>)
    requires !InlineKind(n.kind)
    ensures GatherAll(run, [n] + ns) == Paragraphs(run) + [Gathered(n)] + GatherAll([], ns)
  {
    hide Paragraphs, Gathered;
    assert ([n] + ns)[1..] == ns;
  }

  lemma GatherNone(run: seq<Node>)
    ensures GatherAll(run, []) == Paragraphs(run)
    ensures GatherAll([], []) == []
  {
    NothingShows();
  }

  /** Cut and then gathered, or gathered and then cut: the same blocks are kept. */
  lemma {:induction false} GatherCut(run: seq<Node>, ns: seq<Node>)
    requires AllInline(run)
    ensures CutNodes(GatherAll(run, ns)) == GatherAll(run, CutNodes(ns))
    decreases ns, 1
  {
    hide HasPanel, CutNode, CutNodes, Gathered, GatherAll, Paragraphs, AllInline, InlineKind;
    ParagraphPanel(run);
    GatherNone(run);
    if ns == [] {
      CutsBehind(Paragraphs(run), []);
      CutsNone();
      assert Paragraphs(run) + [] == Paragraphs(run);
    } else {
      var n, rest := ns[0], ns[1..];
      assert ns == [n] + rest;
      CutsAt(n, rest);
      if InlineKind(n.kind) {
        InlineHasNoPanel(n);
        InlineSnoc(run, n);
        GatherCut(run + [n], rest);
        GatherInline(run, n, rest);
        GatherInline(run, n, CutNodes(rest));
      } else {
        NoneInline();
        GatherCut([], rest);
        GatheredPanel(n);
        GatheredCut(n);
        GatherBlock(run, n, rest);
        BlockCut(run, n, rest);
      }
    }
  }

  lemma CutsNone()
    ensures CutNodes([]) == []
  {
  }

  lemma BlockCut(run: seq<Node>, n: Node, rest: seq<Node>)
    requires !InlineKind(n.kind) && AllInline(run)
    requires CutNodes(GatherAll([], rest)) == GatherAll([], CutNodes(rest))
    requires (HasPanel(Gathered(n)) <==> HasPanel(n)) && CutNode(Gathered(n)) == Gathered(CutNode(n))
    ensures CutNodes(Paragraphs(run) + [Gathered(n)] + GatherAll([], rest)) ==
            GatherAll(run, if HasPanel(n) then [CutNode(n)] else [n] + CutNodes(rest))
  {
    hide HasPanel, CutNode, CutNodes, Gathered, GatherAll, Paragraphs, AllInline, InlineKind;
    var ps, g, more := Paragraphs(run), Gathered(n), GatherAll([], rest);
    ParagraphPanel(run);
    Assoc(ps, [g], more);
    CutsBehind(ps, [g] + more);
    CutsAt(g, more);
    GatherNone(run);
    if HasPanel(n) {
      GatherBlock(run, CutNode(n), []);
      assert [CutNode(n)] + [] == [CutNode(n)];
      assert ps + [CutNode(g)] + [] == ps + [CutNode(g)];
    } else {
      GatherBlock(run, n, CutNodes(rest));
      Assoc(ps, [g], CutNodes(more));
    }
  }
}
