/** What a panel keeps of its content: the markup before the first end of a panel's body. */
module PanelHeads {
  import opened Text
  import opened Escape
  import opened Adf
  import opened Storage
  import opened Markup
  import opened HtmlReader
  import opened StorageNested
  import opened Reading
  import opened Settle
  import opened PanelParts
  import opened PanelTitles
  import opened OpenMarkup
  import opened Gather

  /** The blocks that a panel may stand in, and panels. */
  predicate Carries(kind: Kind) {
    kind in {BulletList, OrderedList, ListItem, Blockquote, Panel}
  }

  predicate Blockish(n: Node) {
    Mixed(n) || (n.kind == ListItem && LooseItem(n))
  }

  /** The tags such a block is opened with. */
  function Opener(n: Node): string {
    match n.kind
    case BulletList => "<" + "ul" + ">"
    case OrderedList => "<" + "ol" + ">"
    case ListItem => "<" + "li" + ">"
    case Blockquote => "<" + "blockquote" + ">"
    case _ => "<" + MacroTag(PanelMacro(n.attrs)) + ">" + ("<" + BODY + ">")
  }

  /** A block that holds a panel, printed up to the end of its first panel's body. */
  function HeadNode(n: Node): string
    decreases n, 0
  {
    Opener(n) + HeadNodes(n.content)
  }

  /** Nodes printed up to the end of the first panel's body, or whole when they hold no panel. */
  function HeadNodes(ns: seq<Node>): string
    decreases ns, 1
  {
    if ns == [] then ""
    else if HasPanel(ns[0]) then HeadNode(ns[0])
    else PrintNode(ns[0]) + HeadNodes(ns[1..])
  }

  predicate AnyPanel(ns: seq<Node>) {
    exists c :: c in ns && HasPanel(c)
  }

  lemma InlineHoldsNone(ns: seq<Node>)
    requires AllInline(ns)
    ensures forall c :: c in ns ==> !HasPanel(c)
  {
  }

  lemma TasksHoldNone(items: seq<Node>)
    requires forall c :: c in items ==> c.kind == TaskItem && AllInline(c.content)
    ensures forall c :: c in items ==> !HasPanel(c)
  {
    forall c | c in items ensures !HasPanel(c) { InlineHoldsNone(c.content); }
  }

  lemma CarrierIs(n: Node)
    requires Blockish(n) && HasPanel(n)
    ensures Carries(n.kind) && n.kind != Panel ==> AnyPanel(n.content)
    ensures Carries(n.kind) && forall c :: c in n.content ==> Blockish(c)
  {
    if LooseBlock(n) {
      LooseCarrier(n);
      hide LooseBlock, HasPanel;
    } else {
      assert n.kind == ListItem by { hide LooseBlock, LooseItem; }
      hide LooseBlock;
    }
  }

  lemma LooseCarrier(n: Node)
    requires LooseBlock(n) && HasPanel(n)
    ensures Carries(n.kind) && n.kind != Panel ==> AnyPanel(n.content)
    ensures Carries(n.kind) && forall c :: c in n.content ==> Mixed(c) || (c.kind == ListItem && LooseItem(c))
  {
    if n.kind == Paragraph || n.kind == Heading { InlineHoldsNone(n.content); }
    if n.kind == TaskList { TasksHoldNone(n.content); }
    hide AllInline;
  }

  lemma AnyPanelHead(ns: seq<Node>)
    requires ns != []
    ensures AnyPanel(ns) <==> HasPanel(ns[0]) || AnyPanel(ns[1..])
  {
    hide HasPanel;
    assert ns == [ns[0]] + ns[1..];
  }

  const END := "</" + BODY + ">"

  lemma CarrierPrints(n: Node)
    requires Carries(n.kind) && n.kind != Panel
    ensures exists close :: PrintNode(n) == Opener(n) + PrintNodes(n.content) + close
  {
    hide PrintNodes;
    var close := match n.kind
      case BulletList => "</" + "ul" + ">"
      case OrderedList => "</" + "ol" + ">"
      case ListItem => "</" + "li" + ">"
      case _ => "</" + "blockquote" + ">";
    assert PrintNode(n) == Opener(n) + PrintNodes(n.content) + close;
  }

  lemma PanelPrints(n: Node)
    requires n.kind == Panel
    ensures PrintNode(n) == Opener(n) + PrintNodes(n.content) + (END + ("</" + "ac:structured-macro" + ">"))
  {
    hide PrintNodes, MacroTag, PanelMacro;
    var tag, body := MacroTag(PanelMacro(n.attrs)), PrintNodes(n.content);
    Regroup("<" + tag + ">", "<" + BODY + ">", body, END, "</" + "ac:structured-macro" + ">");
    assert Elem(BODY, BODY, body) == "<" + BODY + ">" + body + END;
    assert Macro(PanelMacro(n.attrs), Elem(BODY, BODY, body)) == "<" + tag + ">" + Elem(BODY, BODY, body) + ("</" + "ac:structured-macro" + ">");
  }

  lemma Regroup(a: string, b: string, c: string, d: string, e: string)
    ensures a + (b + c + d) + e == (a + b) + c + (d + e)
  {
  }

  /** The head of what is printed stands before the first end of a panel's body. */
  lemma {:induction false} HeadThenEnd(ns: seq<Node>) returns (tail: string)
    requires forall c :: c in ns ==> Blockish(c)
    ensures AnyPanel(ns) ==> PrintNodes(ns) == HeadNodes(ns) + (END + tail)
    ensures !AnyPanel(ns) ==> PrintNodes(ns) == HeadNodes(ns)
    decreases ns, 1
  {
    hide HasPanel, Blockish, PrintNode, HeadNode;
    tail := "";
    if ns != [] {
      AnyPanelHead(ns);
      if HasPanel(ns[0]) {
        tail := NodeThenEnd(ns[0]);
        Assoc(HeadNode(ns[0]), END + tail, PrintNodes(ns[1..]));
        Assoc(END, tail, PrintNodes(ns[1..]));
        tail := tail + PrintNodes(ns[1..]);
      } else {
        tail := HeadThenEnd(ns[1..]);
        Assoc(PrintNode(ns[0]), HeadNodes(ns[1..]), END + tail);
      }
    }
  }

  lemma {:induction false} NodeThenEnd(n: Node) returns (tail: string)
    requires Blockish(n) && HasPanel(n)
    ensures PrintNode(n) == HeadNode(n) + (END + tail)
    decreases n, 0
  {
    CarrierIs(n);
    hide HasPanel, Blockish, PrintNode, PrintNodes, HeadNodes, Opener, AnyPanel, Carries;
    var inner := HeadThenEnd(n.content);
    var head, body := HeadNodes(n.content), PrintNodes(n.content);
    if n.kind == Panel {
      PanelPrints(n);
      var close := "</" + "ac:structured-macro" + ">";
      if AnyPanel(n.content) {
        tail := inner + (END + close);
        Pieces(Opener(n), head, END, inner, END + close);
      } else {
        tail := close;
      }
    } else {
      CarrierPrints(n);
      var close :| PrintNode(n) == Opener(n) + body + close;
      tail := inner + close;
      Pieces(Opener(n), head, END, inner, close);
    }
  }

  lemma Pieces(a: string, b: string, c: string, d: string, e: string)
    ensures a + (b + (c + d)) + e == (a + b) + (c + (d + e))
  {
  }

  // ---- the body a panel is read with ----

  /** Open markup without a marker among its tags. */
  predicate OpenWithout(s: string, t: string) {
    LeftOpen(s) && t !in Tags(s)
  }

  lemma OpenNames()
    ensures OpenTag("ul", "ul") && OpenTag("ol", "ol") && OpenTag("li", "li") && OpenTag("blockquote", "blockquote")
    ensures OpenTag(BODY, BODY)
  {
    hide OpenTag;
    BlockNames();
    MacroNames();
    assert "ul" + "" == "ul" && "ol" + "" == "ol" && "li" + "" == "li" && "blockquote" + "" == "blockquote" && BODY + "" == BODY;
    OpenTagIs("ul", "");
    OpenTagIs("ol", "");
    OpenTagIs("li", "");
    OpenTagIs("blockquote", "");
    OpenTagIs(BODY, "");
  }

  lemma MacroOpens(attrs: Attrs)
    ensures OpenTag(MacroTag(PanelMacro(attrs)), "ac:structured-macro") && PlainName("ac:structured-macro")
    ensures MacroTag(PanelMacro(attrs)) != TITLE && MacroTag(PanelMacro(attrs)) != BODY_END
  {
    hide OpenTag, PanelMacro, PlainName;
    MacroNames();
    MacroIsName(attrs);
    NameInert(PanelMacro(attrs));
    AttributeTag("ac:structured-macro", "ac:name", PanelMacro(attrs));
    MacroTagIsNoMarker(PanelMacro(attrs));
  }

  lemma OpensWithout(tag: string, name: string, s: string, t: string)
    requires OpenTag(tag, name) && tag != t && OpenWithout(s, t)
    ensures OpenWithout("<" + tag + ">" + s, t)
  {
    hide OpenTag, LeftOpen, Tags;
    OpenInside(tag, name, s);
  }

  /** Opening a block brings no marker. */
  lemma OpenerWithout(n: Node, s: string, t: string)
    requires Carries(n.kind) && (t == TITLE || t == BODY_END) && OpenWithout(s, t)
    ensures OpenWithout(Opener(n) + s, t)
  {
    hide OpenTag, OpenWithout, PanelMacro, MacroTag, PlainName;
    OpenNames();
    BlockNames();
    MacroNames();
    PlainIsNoMarker(BODY);
    if n.kind == Panel {
      MacroOpens(n.attrs);
      OpensWithout(BODY, BODY, s, t);
      var tag := MacroTag(PanelMacro(n.attrs));
      OpensWithout(tag, "ac:structured-macro", "<" + BODY + ">" + s, t);
      Assoc("<" + tag + ">", "<" + BODY + ">", s);
    } else {
      var name := match n.kind case BulletList => "ul" case OrderedList => "ol" case ListItem => "li" case _ => "blockquote";
      PlainIsNoMarker(name);
      OpensWithout(name, name, s, t);
    }
  }

  lemma BehindWithout(a: string, b: string, t: string)
    requires Avoids(a, t) && OpenWithout(b, t)
    ensures OpenWithout(a + b, t)
  {
    hide WellNested, LeftOpen, Tags;
    OpenBehind(a, b);
  }

  lemma NothingWithout(t: string)
    ensures OpenWithout("", t)
  {
  }

  /** No panel's body ends in the head of what is printed. */
  lemma {:induction false} HeadWithoutEnd(ns: seq<Node>)
    requires forall c :: c in ns ==> Blockish(c)
    ensures OpenWithout(HeadNodes(ns), BODY_END)
    decreases ns
  {
    hide HasPanel, Blockish, OpenWithout, Opener, PrintAs, Avoids, Carries;
    if ns == [] {
      NothingWithout(BODY_END);
    } else if HasPanel(ns[0]) {
      CarrierIs(ns[0]);
      HeadWithoutEnd(ns[0].content);
      OpenerWithout(ns[0], HeadNodes(ns[0].content), BODY_END);
    } else {
      HeadWithoutEnd(ns[1..]);
      assert Free(ns[0], BODY_END);
      AvoidsNode(ns[0], ns[0].attrs, BODY_END);
      BehindWithout(PrintNode(ns[0]), HeadNodes(ns[1..]), BODY_END);
    }
  }

  /** The body read for a panel ends where the first panel's body inside it ends. */
  lemma PanelBodyIs(ns: seq<Node>)
    requires forall c :: c in ns ==> Blockish(c)
    ensures MacroBody(Elem(BODY, BODY, PrintNodes(ns)), BODY) == HeadNodes(ns)
  {
    hide MacroBody, PrintNodes, HeadNodes, LeftOpen, Complete, Tags, AnyPanel, Blockish, Elem;
    var head, body := HeadNodes(ns), PrintNodes(ns);
    var rest := HeadThenEnd(ns);
    var tail := if AnyPanel(ns) then rest + END else "";
    HeadWithoutEnd(ns);
    OpenIsComplete(head);
    BodyEnd();
    FirstTag(head, BODY_END, tail);
    BodyBetween(BODY, head, tail);
    if AnyPanel(ns) { BodyAround(head, rest); } else { assert head + END + "" == body + END; }
    BodyOf(body);
  }

  lemma BodyOf(body: string)
    ensures Elem(BODY, BODY, body) == ("<" + BODY + ">") + (body + END)
  {
    Assoc("<" + BODY + ">", body, END);
  }

  lemma BodyAround(head: string, rest: string)
    ensures head + (END + rest) + END == head + END + (rest + END)
  {
    Assoc(head, END + rest, END);
    Assoc(END, rest, END);
    Assoc(head, END, rest + END);
  }

  lemma OpenIsComplete(s: string)
    requires LeftOpen(s)
    ensures Complete(s)
  {
  }

  /** A body left open is read to its end. */
  lemma OpenBodyIs(s: string)
    requires OpenWithout(s, BODY_END)
    ensures MacroBody("<" + BODY + ">" + s, BODY) == s
  {
    hide Index, LeftOpen, Complete, Tags;
    OpenIsComplete(s);
    BodyEnd();
    NoTag(s, BODY_END);
    var open := "<" + BODY + ">";
    IndexFirst(open + s, open, 0);
    assert (open + s)[0..] == open + s && (open + s)[|open|..] == s;
  }

  // ---- the title a panel left open is given ----

  lemma OpenerComplete(n: Node)
    requires Carries(n.kind)
    ensures Complete(Opener(n)) && TITLE !in Tags(Opener(n))
  {
    hide Opener, Carries;
    NothingWithout(TITLE);
    OpenerWithout(n, "", TITLE);
    assert Opener(n) + "" == Opener(n);
  }

  /** The first status of a block that is cut is the first in what is kept of its content. */
  lemma CutStatus(n: Node)
    requires Carries(n.kind)
    ensures StatusIn(CutNode(n)) == FirstStatus(CutNodes(n.content))
  {
    CarriesContent(n.kind);
    hide CutNodes, FirstStatus, Carries, PrintsContent;
    StatusWithin(CutNode(n));
  }

  lemma CarriesContent(kind: Kind)
    requires Carries(kind)
    ensures PrintsContent(kind) && kind != Status
  {
  }

  lemma StatusWithin(n: Node)
    requires PrintsContent(n.kind) && n.kind != Status
    ensures StatusIn(n) == FirstStatus(n.content)
  {
    hide FirstStatus, PrintsContent;
  }

  lemma FirstOfOne(n: Node)
    ensures FirstStatus([n]) == StatusIn(n)
  {
    hide StatusIn;
    assert [n][1..] == [] && FirstStatus([]).None?;
  }

  /** The head of what is printed holds the first status that is kept, where a title is looked for. */
  lemma {:induction false} HeadSplits(ns: seq<Node>) returns (a: string, b: string)
    requires (forall c :: c in ns ==> Blockish(c)) && FirstStatus(CutNodes(ns)).Some?
    ensures Splits(HeadNodes(ns), a, FirstStatus(CutNodes(ns)).value, b)
    decreases ns
  {
    hide HasPanel, Blockish, Opener, PrintAs, StatusIn, Splits, Carries, CutNode, Ordered, AnyPanel;
    var n := ns[0];
    if HasPanel(n) {
      CarrierIs(n);
      CutStatus(n);
      FirstOfOne(CutNode(n));
      a, b := HeadSplits(n.content);
      OpenerComplete(n);
      SplitBehind(Opener(n), HeadNodes(n.content), a, FirstStatus(CutNodes(ns)).value, b);
      a := Opener(n) + a;
    } else {
      BlockishOrdered(n);
      FirstStatusJoins(n, CutNodes(ns[1..]));
      var rest := HeadNodes(ns[1..]);
      if StatusIn(n).Some? {
        a, b := NodeSplits(n, n.attrs);
        SplitBefore(PrintNode(n), rest, a, StatusIn(n).value, b);
        b := b + rest;
      } else {
        a, b := HeadSplits(ns[1..]);
        OrderedFree(n);
        AvoidsNode(n, n.attrs, TITLE);
        AvoidsComplete(PrintNode(n));
        SplitBehind(PrintNode(n), rest, a, FirstStatus(CutNodes(ns)).value, b);
        a := PrintNode(n) + a;
      }
    }
  }

  lemma BlockishOrdered(n: Node)
    requires Blockish(n)
    ensures Ordered(n)
  {
    hide Ordered;
    ShapeOrdered(n);
  }

  lemma FirstStatusJoins(n: Node, ns: seq<Node>)
    ensures FirstStatus([n] + ns) == if StatusIn(n).Some? then StatusIn(n) else FirstStatus(ns)
  {
    hide StatusIn;
    assert ([n] + ns)[1..] == ns;
  }

  /** Without a status in what is kept, no title stands in the head. */
  lemma {:induction false} HeadWithoutTitle(ns: seq<Node>)
    requires (forall c :: c in ns ==> Blockish(c)) && FirstStatus(CutNodes(ns)).None?
    ensures OpenWithout(HeadNodes(ns), TITLE)
    decreases ns
  {
    hide HasPanel, Blockish, OpenWithout, Opener, PrintAs, Avoids, Carries, CutNode, Ordered, StatusIn, AnyPanel;
    if ns == [] {
      NothingWithout(TITLE);
    } else if HasPanel(ns[0]) {
      CarrierIs(ns[0]);
      CutStatus(ns[0]);
      FirstOfOne(CutNode(ns[0]));
      HeadWithoutTitle(ns[0].content);
      OpenerWithout(ns[0], HeadNodes(ns[0].content), TITLE);
    } else {
      FirstStatusJoins(ns[0], CutNodes(ns[1..]));
      HeadWithoutTitle(ns[1..]);
      BlockishOrdered(ns[0]);
      OrderedFree(ns[0]);
      AvoidsNode(ns[0], ns[0].attrs, TITLE);
      BehindWithout(PrintNode(ns[0]), HeadNodes(ns[1..]), TITLE);
    }
  }

  /** A panel left open takes its title from what is kept of its content. */
  lemma HeadTitle(ns: seq<Node>)
    requires forall c :: c in ns ==> Blockish(c)
    ensures MacroParameter("<" + BODY + ">" + HeadNodes(ns), "title") == StolenTitle(CutNodes(ns))
  {
    hide MacroParameter, HeadNodes, CutNodes, Splits, Blockish, TrimSpace, FirstStatus, OpenTag, PlainName, Complete, Tags, Run;
    var open := "<" + BODY + ">";
    MacroNames();
    PlainIsNoMarker(BODY);
    OpenNames();
    if FirstStatus(CutNodes(ns)).Some? {
      var a, b := HeadSplits(ns);
      var text := FirstStatus(CutNodes(ns)).value;
      NameInert(BODY);
      CompleteTag(BODY);
      SplitBehind(open, HeadNodes(ns), a, text, b);
      TitleFound(open + HeadNodes(ns), open + a, text, b);
    } else {
      HeadWithoutTitle(ns);
      OpensWithout(BODY, BODY, HeadNodes(ns), TITLE);
      NoTitleIn(open + HeadNodes(ns));
    }
  }

  // ---- keeping what is kept ----

  /** What is cut still holds the panel that it is cut at. */
  lemma {:induction false} CutHolds(n: Node)
    ensures HasPanel(CutNode(n)) <==> HasPanel(n)
    decreases n, 0
  {
    CutsHold(n.content);
    hide CutNodes, HasPanel, AnyPanel;
    HoldsWithin(n);
    HoldsWithin(CutNode(n));
  }

  lemma HoldsWithin(n: Node)
    ensures HasPanel(n) <==> n.kind == Panel || (PrintsContent(n.kind) && AnyPanel(n.content))
  {
  }

  lemma {:induction false} CutsHold(ns: seq<Node>)
    ensures AnyPanel(CutNodes(ns)) <==> AnyPanel(ns)
    decreases ns, 1
  {
    hide HasPanel, CutNode, AnyPanel;
    if ns != [] {
      AnyPanelHead(ns);
      AnyPanelHead(CutNodes(ns));
      if HasPanel(ns[0]) {
        CutHolds(ns[0]);
      } else {
        CutsHold(ns[1..]);
        assert CutNodes(ns)[1..] == CutNodes(ns[1..]);
      }
    }
  }

  lemma {:induction false} CutTwice(ns: seq<Node>)
    ensures CutNodes(CutNodes(ns)) == CutNodes(ns)
    decreases ns
  {
    hide HasPanel;
    if ns != [] {
      if HasPanel(ns[0]) {
        CutHolds(ns[0]);
        CutTwice(ns[0].content);
      } else {
        CutTwice(ns[1..]);
        assert ([ns[0]] + CutNodes(ns[1..]))[1..] == CutNodes(ns[1..]);
      }
    }
  }
}
