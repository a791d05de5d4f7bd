/** What reading cannot give back: content behind a nested panel, and content behind an open break. */
module Losses {
  import opened Text
  import opened Escape
  import opened Adf
  import opened Storage
  import opened Markup
  import opened Closing
  import opened HtmlReader
  import opened StorageNested
  import opened Reading
  import opened Settle
  import opened RoundTripInline
  import opened OpenMarkup
  import opened PanelHeads
  import opened RoundTrip
  import opened Canonical

  // ---- panels in panels ----

  function PanelOf(attrs: Attrs, content: seq<Node>): Node {
    Block(Doc, map[], [Block(Panel, attrs, content)])
  }

  lemma PanelOfShape(attrs: Attrs, content: seq<Node>)
    requires forall c :: c in content ==> BlockShape(c)
    ensures Shape(PanelOf(attrs, content)) && BlockShape(Block(Panel, attrs, content))
  {
    assert forall c :: c in PanelOf(attrs, content).content ==> c == Block(Panel, attrs, content);
  }

  lemma PanelOfReads(attrs: Attrs, content: seq<Node>)
    requires forall c :: c in content ==> BlockShape(c)
    ensures FromHtml(ToStorage(PanelOf(attrs, content))) ==
            Block(Doc, map[], [Block(Panel, map["panelType" := Str(SettledKind(attrs))],
                                     PanelTitle(StolenTitle(content)) + SettleBlocks(CutNodes(content)))])
  {
    hide BlockShape, FromHtml, ToStorage, SettledKind, PanelTitle, StolenTitle, SettleBlock, CutNodes;
    PanelOfShape(attrs, content);
    ReadsSettled(PanelOf(attrs, content));
    SettlesOne(Block(Panel, attrs, content));
    hide SettleBlocks;
    PanelSettles(Block(Panel, attrs, content));
  }

  /**
   * A panel in a panel makes the reader forget what follows it: contents that agree up to the
   * first nested panel's end, and in the first status, read the same.
   */
  lemma NestedPanelForgets(attrs: Attrs, content: seq<Node>, other: seq<Node>)
    requires (forall c :: c in content ==> BlockShape(c)) && (forall c :: c in other ==> BlockShape(c))
    requires CutNodes(content) == CutNodes(other) && StolenTitle(content) == StolenTitle(other)
    ensures FromHtml(ToStorage(PanelOf(attrs, content))) == FromHtml(ToStorage(PanelOf(attrs, other)))
  {
    hide BlockShape, FromHtml, ToStorage, CutNodes, StolenTitle, PanelOf, SettleBlocks;
    PanelOfReads(attrs, content);
    PanelOfReads(attrs, other);
  }

  /** A panel whose first block is a panel comes back exactly when that is all it holds. */
  lemma NestedPanelKept(outer: Attrs, inner: Attrs, content: seq<Node>, rest: seq<Node>)
    ensures var nested := Block(Panel, inner, content);
            var doc := PanelOf(outer, [nested] + rest);
            FromHtml(ToStorage(doc)) == doc <==>
            rest == [] && CanonicalKind(outer) && CanonicalBlock(nested)
  {
    hide FromHtml, ToStorage, CanonicalKind, HasPanel, StolenTitle;
    var nested := Block(Panel, inner, content);
    var all := [nested] + rest;
    assert forall c :: c in all ==> c == nested || c in rest;
    RoundTripsExactly(PanelOf(outer, all));
    var panel := Block(Panel, outer, all);
    assert PanelOf(outer, all).content == [panel];
    assert CanonicalDoc(PanelOf(outer, all)) <==> CanonicalBlock(panel) by { hide CanonicalBlock; assert panel in [panel]; }
    NestedHas(inner, content);
    assert all[0] == nested && all[1..] == rest;
    PanelLastStep(all);
    NestedTitle(inner, content);
    hide PanelLast;
    if rest == [] { assert all == [nested]; }
  }

  lemma NestedHas(attrs: Attrs, content: seq<Node>)
    ensures HasPanel(Block(Panel, attrs, content))
  {
  }

  lemma NestedTitle(attrs: Attrs, content: seq<Node>)
    ensures StolenTitle([Block(Panel, attrs, content)]) == StolenTitle(content)
  {
    hide TrimSpace;
    FirstOfOne(Block(Panel, attrs, content));
    hide FirstStatus;
  }

  lemma CutAtFirst(n: Node, rest: seq<Node>)
    requires HasPanel(n)
    ensures CutNodes([n] + rest) == [CutNode(n)]
  {
    hide HasPanel, CutNode;
    assert ([n] + rest)[0] == n;
  }

  /** What stands behind a nested panel without naming a first status is lost. */
  lemma RestIsLost(outer: Attrs, inner: Attrs, content: seq<Node>, rest: seq<Node>)
    requires (forall c :: c in content ==> BlockShape(c)) && (forall c :: c in rest ==> BlockShape(c))
    requires FirstStatus(content).Some? || FirstStatus(rest).None?
    ensures var nested := Block(Panel, inner, content);
            FromHtml(ToStorage(PanelOf(outer, [nested] + rest))) == FromHtml(ToStorage(PanelOf(outer, [nested])))
  {
    hide BlockShape, FromHtml, ToStorage, HasPanel, FirstStatus, StatusIn, CutNodes, PanelOf;
    var nested := Block(Panel, inner, content);
    PanelOfShape(inner, content);
    NestedHas(inner, content);
    CutAtFirst(nested, rest);
    CutAtFirst(nested, []);
    assert [nested] + [] == [nested];
    StatusWithinPanel(nested);
    FirstStatusJoins(nested, rest);
    FirstOfOne(nested);
    assert forall c :: c in [nested] + rest ==> c == nested || c in rest;
    NestedPanelForgets(outer, [nested] + rest, [nested]);
  }

  lemma StatusWithinPanel(n: Node)
    requires n.kind == Panel
    ensures StatusIn(n) == FirstStatus(n.content)
  {
    hide FirstStatus;
  }

  const INFO: Attrs := map["panelType" := Str("info")]

  lemma EmptyPanelKept()
    ensures CanonicalKind(INFO) && CanonicalBlock(Block(Panel, INFO, [])) && FirstStatus([]).None?
  {
    hide TrimSpace;
    assert StrAttr(INFO, "panelType") == "info";
  }

  /** A rule behind an empty panel in a panel is lost: both documents are read as the one without it. */
  lemma RuleIsLost()
    ensures var nested := Block(Panel, INFO, []);
            && PanelOf(INFO, [nested] + [Leaf(Rule, map[])]) != PanelOf(INFO, [nested] + [])
            && FromHtml(ToStorage(PanelOf(INFO, [nested] + []))) == PanelOf(INFO, [nested] + [])
            && FromHtml(ToStorage(PanelOf(INFO, [nested] + [Leaf(Rule, map[])]))) == PanelOf(INFO, [nested] + [])
  {
    EmptyPanelKept();
    NoStatusInRule();
    hide FromHtml, ToStorage, HasPanel, FirstStatus, CanonicalKind, CanonicalBlock;
    var nested := Block(Panel, INFO, []);
    assert |[nested] + [Leaf(Rule, map[])]| != |[nested] + []|;
    NestedPanelKept(INFO, INFO, [], []);
    RestIsLost(INFO, INFO, [], [Leaf(Rule, map[])]);
    assert [nested] + [] == [nested];
  }

  lemma NoStatusInRule()
    ensures FirstStatus([Leaf(Rule, map[])]).None? && BlockShape(Leaf(Rule, map[]))
  {
    FirstOfOne(Leaf(Rule, map[]));
  }

  // ---- breaks left open, as the HTML form writes them ----

  lemma BreakElement(inner: string)
    ensures InlineElement("br", "br", inner) == [Leaf(HardBreak, map[])]
  {
  }

  /** A tag that is closed later holds all that stands before its close. */
  lemma ClosedElement(tag: string, name: string, rest: string)
    requires tag != "" && tag[0] != '!' && '>' !in tag && !SelfCloses(tag) && TagName(tag) == name != ""
    requires ClosingIn(ToLower(rest), name, 0) >= 0
    ensures var s, end := "<" + tag + ">" + rest, ClosingIn(ToLower(rest), name, 0);
            ElementOf(s) == Element(name, tag, rest[..end], |tag| + 2 + end + |name| + 3)
  {
    hide TagName, ClosingIn, SelfCloses, ToLower;
    var s := "<" + tag + ">" + rest;
    OwnTagEnds(tag, rest);
    assert s[1..|tag| + 1] == tag && s[|tag| + 2..] == rest;
    assert !("!" <= tag);
  }

  /**
   * A break that does not close itself swallows what stands before the close that matches it,
   * and without one all that is left.
   */
  lemma OpenBreakReads(rest: string)
    ensures var end := ClosingIn(ToLower(rest), "br", 0);
            InlineOf("<" + "br" + ">" + rest) ==
            [Leaf(HardBreak, map[])] + if end < 0 then [] else InlineOf(rest[end + |"</br>"|..])
  {
    hide InlineElement, InlineOf, ElementOf, TagName, ClosingIn;
    var s, end := "<" + "br" + ">" + rest, ClosingIn(ToLower(rest), "br", 0);
    assert PlainName("br");
    TagNameSimple("br");
    if end < 0 {
      Unclosed("br", "br", rest);
      BreakElement(rest);
      assert s[|s|..] == "";
      InlineEnd();
    } else {
      ClosedElement("br", "br", rest);
      BreakElement(rest[..end]);
      assert s[4 + end + 5..] == rest[end + 5..];
    }
    InlineRound(s);
  }

  /** In well-nested markup no close matches it. */
  lemma OpenBreakSwallows(rest: string)
    requires WellNested(rest)
    ensures InlineOf("<" + "br" + ">" + rest) == [Leaf(HardBreak, map[])]
  {
    hide InlineOf, ClosingIn, Complete, Tags, Run;
    NeverCloses(rest, "br", []);
    OpenBreakReads(rest);
  }

  /** An open break does not hide the end of the paragraph around it. */
  lemma ParagraphEnds(text: string, rest: string, more: string)
    requires '<' !in text && WellNested(rest)
    ensures var body := text + ("<" + "br" + ">" + rest);
            ClosingIn(ToLower(body + ("</" + "p" + ">") + more), "p", 0) == |body|
  {
    hide ClosingIn, WellNested, Index;
    var tail := rest + ("</" + "p" + ">") + more;
    assert PlainName("p");
    CloseFound(rest, "p", more);
    ClosedSoFound(ToLower(tail), "p");
    LowerTag("br", tail);
    LowerId("br");
    BreakIsNoParagraph();
    TagStep("br", "p", ToLower(tail), 0);
    var broken := "<" + "br" + ">" + tail;
    assert text + ("<" + "br" + ">" + rest) + ("</" + "p" + ">") + more == text + broken;
    PassText(text, broken, "p");
  }

  lemma BreakIsNoParagraph()
    ensures DepthAfter("br", "p", 0) == 0 && GoodName("p") && '<' !in "br" && '>' !in "br" && "br" != "/" + "p"
  {
    NameOfIs("br", "");
    assert "br" + "" == "br";
  }

  lemma ClosedSoFound(low: string, name: string)
    ensures ClosingIn(low, name, 0) >= 0 ==> Index(low, CloseOf(name)) >= 0
  {
    if Index(low, CloseOf(name)) < 0 { NoClose(low, name, 0); }
  }

  lemma {:induction false} PassText(text: string, more: string, name: string)
    requires '<' !in text && ClosingIn(ToLower(more), name, 0) >= 0
    ensures ClosingIn(ToLower(text + more), name, 0) == |text| + ClosingIn(ToLower(more), name, 0)
  {
    hide ClosingIn;
    if text == "" {
      assert text + more == more;
    } else {
      PassText(text[1..], more, name);
      var low := ToLower(text + more);
      assert (text + more)[1..] == text[1..] + more && low[1..] == ToLower(text[1..] + more);
      assert text[0] in text && low[0] == Lower(text[0]) != '<';
      assert CloseOf(name)[0] == '<' && OpenOf(name)[0] == '<';
      PassFirst(low, name, 0);
    }
  }

  lemma ParagraphParts(escaped: string, rest: string, more: string)
    ensures var body := escaped + ("<" + "br" + ">" + rest);
            "<p>" + escaped + "<br>" + rest + "</p>" + more == "<" + "p" + ">" + (body + ("</" + "p" + ">") + more)
  {
    assert "<p>" == "<" + "p" + ">" && "<br>" == "<" + "br" + ">" && "</p>" == "</" + "p" + ">";
  }

  lemma PlainTag(name: string)
    requires PlainName(name)
    ensures name != "" && name[0] != '!' && '>' !in name && !SelfCloses(name) && TagName(name) == name
  {
    hide TagName;
    PlainFacts(name);
    NameInert(name);
    TagNameSimple(name);
  }

  lemma FoundParts(name: string, body: string, more: string)
    ensures var rest := body + ("</" + name + ">") + more;
            rest[..|body|] == body && ("<" + name + ">" + rest)[|name| + 2 + |body| + |name| + 3..] == more
  {
  }

  /** An element is read where it is found. */
  lemma ReadFound(name: string, body: string, more: string, block: Node)
    requires PlainName(name) && BlockOf(name, name, body) == Some(block)
    requires ClosingIn(ToLower(body + ("</" + name + ">") + more), name, 0) == |body|
    ensures BlocksOf("<" + name + ">" + (body + ("</" + name + ">") + more), "") == [block] + BlocksOf(more, "")
  {
    hide BlocksOf, BlockOf, ElementOf, ClosingIn, Flush, ToLower, TagName, PlainName, SelfCloses;
    PlainTag(name);
    var rest := body + ("</" + name + ">") + more;
    var s := "<" + name + ">" + rest;
    FoundParts(name, body, more);
    ClosedElement(name, name, rest);
    BlocksRound(s, "");
    FlushEmpty();
    assert [] + [block] == [block];
  }

  /**
   * In a paragraph the text before an open break is kept and what stands behind it in the
   * paragraph is lost; what follows the paragraph is read on its own.
   */
  lemma OpenBreakInParagraph(text: string, rest: string, more: string)
    requires WellNested(rest)
    ensures BlocksOf("<p>" + EscapeString(text) + "<br>" + rest + "</p>" + more, "") ==
            [Block(Paragraph, map[], TextOf(text) + [Leaf(HardBreak, map[])])] + BlocksOf(more, "")
  {
    hide BlocksOf, BlockOf, InlineOf, ClosingIn, WellNested, EscapeString, TextOf, ToLower, PlainName;
    var broken := "<" + "br" + ">" + rest;
    var body := EscapeString(text) + broken;
    EscapeIsInert(text);
    ParagraphEnds(EscapeString(text), rest, more);
    BlockNames();
    OpenBreakSwallows(rest);
    ReadRun(text, broken);
    TextBlocks(body);
    ReadFound("p", body, more, Block(Paragraph, map[], InlineOf(body)));
    ParagraphParts(EscapeString(text), rest, more);
  }
}
