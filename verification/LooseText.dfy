/** Plain text that no block holds, read: told from the markup alone. */
module LooseText {
  import opened Text
  import opened Escape
  import opened Adf
  import opened Storage
  import opened HtmlReader
  import opened Settle
  import opened RoundTripInline
  import opened RoundTripLeaves
  import opened Gather
  import opened GatherCuts
  import opened RoundTrip

  /** A paragraph that shows the text without the space around it, when there is more than space. */
  function Shown(text: string): seq<Node> {
    if Blank(text) then [] else [Block(Paragraph, map[], [TextNode(TrimSpace(text), [])])]
  }

  function Plain(text: string): Node {
    TextNode(text, [])
  }

  lemma {:induction false} TrimLeftStarts(s: string)
    ensures TrimLeft(s) == "" || !IsSpace(TrimLeft(s)[0])
  {
    if s != "" && IsSpace(s[0]) { TrimLeftStarts(s[1..]); }
  }

  lemma TrimShows(text: string)
    ensures Blank(TrimSpace(text)) <==> Blank(text)
    ensures Blank(TrimLeft(text)) <==> Blank(text)
  {
    TrimBlank(text);
    TrimLeftStarts(text);
    TrimRightBlank(TrimLeft(text));
    hide TrimLeft, TrimRight;
    var t := TrimSpace(text);
    if t != "" { assert t[0] == TrimLeft(text)[0] && t[0] in t; }
  }

  lemma PlainIsRun(text: string)
    ensures PlainRun(Plain(text)) == Some(text) && AllInline([Plain(text)])
  {
  }

  lemma ShownSettles(text: string)
    ensures Paragraphs([Plain(text)]) == Shown(text) && SettleBlocks(Shown(text)) == Shown(text)
  {
    hide Blank, TrimLeft, TrimRight, PlainRun, SettleInline;
    PlainIsRun(text);
    PlainIsRun(TrimLeft(text));
    TrimShows(text);
    assert [Plain(text)][1..] == [] && LeadTrimmed([]) == [];
    var lead := [Plain(TrimLeft(text))];
    assert lead[..0] == [] && [] + [Plain(TrimSpace(text))] == [Plain(TrimSpace(text))];
    assert [Plain(TrimLeft(text))] + [] == lead;
    if Blank(text) {
      assert SettleBlocks([]) == [];
    } else {
      OneParagraph([Plain(TrimSpace(text))]);
      ShownInline(TrimSpace(text));
    }
  }

  lemma ShownInline(text: string)
    requires !Blank(text)
    ensures SettleInline("", [Plain(text)]) == [Plain(text)]
  {
    hide Blank, PlainRun;
    PlainIsRun(text);
    assert [Plain(text)][1..] == [] && "" + text == text;
    assert SettleInline(text, []) == TextOf(text);
  }

  /** Text alone is one paragraph. */
  lemma TextReads(text: string)
    ensures FromHtml(EscapeString(text)) ==
            Block(Doc, map[], if Blank(text) then [Block(Paragraph, map[], [])] else Shown(text))
  {
    hide BlocksOf, EscapeString, PrintNodes, Paragraphs, SettleBlocks, Blank, TrimSpace, AllInline, AllMixed, PrintNode;
    PlainPrints(text);
    PrintOne(Plain(text));
    PlainIsRun(text);
    PlainMixed(text);
    NoneInline();
    NothingPrints();
    MixedReads([], [Plain(text)]);
    GatherInline([], Plain(text), []);
    GatherNone([Plain(text)]);
    assert [Plain(text)] + [] == [Plain(text)] && [] + [Plain(text)] == [Plain(text)];
    ShownSettles(text);
  }

  lemma PlainMixed(text: string)
    ensures AllMixed([Plain(text)])
  {
  }

  lemma AroundMixed(before: string, n: Node, after: string)
    requires LooseBlock(n)
    ensures AllMixed([Plain(before), n, Plain(after)])
  {
    hide LooseBlock;
  }

  lemma AroundPrints(before: string, n: Node, after: string)
    ensures PrintNodes([Plain(before), n, Plain(after)]) == EscapeString(before) + PrintNode(n) + EscapeString(after)
  {
    hide PrintNode, PrintNodes, EscapeString;
    PlainPrints(before);
    PlainPrints(after);
    PrintOne(Plain(after));
    PrintFirst(n, [Plain(after)]);
    PrintFirst(Plain(before), [n] + [Plain(after)]);
    assert [Plain(before)] + ([n] + [Plain(after)]) == [Plain(before), n, Plain(after)];
    Assoc(EscapeString(before), PrintNode(n), EscapeString(after));
  }

  lemma AroundGathers(before: string, n: Node, after: string)
    requires LooseBlock(n)
    ensures GatherAll([], [Plain(before), n, Plain(after)]) ==
            Paragraphs([Plain(before)]) + [Gathered(n)] + Paragraphs([Plain(after)])
  {
    assert !InlineKind(n.kind) by { hide AllInline, Mixed; }
    hide LooseBlock, Paragraphs, GatherAll, Gathered;
    var b, a := Plain(before), Plain(after);
    assert [b, n, a] == [b] + [n, a] && [n, a] == [n] + [a] && [a] == [a] + [];
    assert [] + [b] == [b] && [] + [a] == [a];
    GatherInline([], b, [n, a]);
    GatherBlock([b], n, [a]);
    GatherInline([], a, []);
    GatherNone([a]);
  }

  /** In front of a block and behind it, each is a paragraph in its place. */
  lemma TextAroundReads(before: string, n: Node, after: string)
    requires LooseBlock(n)
    ensures FromHtml(EscapeString(before) + PrintNode(n) + EscapeString(after)) ==
            Block(Doc, map[], Shown(before) + [SettleBlock(Gathered(n))] + Shown(after))
  {
    hide FromHtml, EscapeString, PrintNodes, Paragraphs, SettleBlocks, AllMixed, PrintNode, LooseBlock, SettleBlock, Gathered, GatherAll, Shown;
    AroundMixed(before, n, after);
    AroundPrints(before, n, after);
    AroundGathers(before, n, after);
    var doc := Block(Doc, map[], [Plain(before), n, Plain(after)]);
    ReadsGathered(doc);
    ShownSettles(before);
    ShownSettles(after);
    SettlesOne(Gathered(n));
    SettlesConcat(Shown(before) + [Gathered(n)], Shown(after));
    SettlesConcat(Shown(before), [Gathered(n)]);
  }

  lemma PlainGathers(text: string)
    ensures SettleBlocks(GatherAll([], [Plain(text)])) == Shown(text)
  {
    hide Paragraphs, SettleBlocks, GatherAll, Shown;
    PlainIsRun(text);
    GatherInline([], Plain(text), []);
    GatherNone([Plain(text)]);
    assert [Plain(text)] + [] == [Plain(text)] && [] + [Plain(text)] == [Plain(text)];
    ShownSettles(text);
  }

  /** In an item of a list and in a quote it is a paragraph too. */
  lemma TextInsideReads(text: string)
    ensures FromHtml("<ul>" + ("<li>" + EscapeString(text) + "</li>") + "</ul>") ==
            Block(Doc, map[], [Block(BulletList, map[], [Block(ListItem, map[], if Blank(text) then [Block(Paragraph, map[], [])] else Shown(text))])])
    ensures FromHtml("<blockquote>" + EscapeString(text) + "</blockquote>") ==
            Block(Doc, map[], [Block(Blockquote, map[], Shown(text))])
  {
    InItemReads(text);
    InQuoteReads(text);
  }

  /** A block alone. */
  lemma OneBlockReads(n: Node)
    requires LooseBlock(n)
    ensures FromHtml(PrintNode(n)) == Block(Doc, map[], [SettleBlock(Gathered(n))])
  {
    hide FromHtml, PrintNodes, SettleBlocks, AllMixed, PrintNode, LooseBlock, SettleBlock, Gathered, GatherAll, Paragraphs, InlineKind;
    MixedOne(n);
    ReadsGathered(Block(Doc, map[], [n]));
    PrintOne(n);
    GatherBlock([], n, []);
    GatherNone([]);
    assert [n] + [] == [n] && [] + [Gathered(n)] + [] == [Gathered(n)];
    NothingShows();
    SettlesOne(Gathered(n));
  }

  lemma MixedOne(n: Node)
    requires LooseBlock(n)
    ensures AllMixed([n]) && !InlineKind(n.kind)
  {
    hide AllInline;
    assert !InlineKind(n.kind) by { hide Mixed; }
    hide LooseBlock;
  }

  lemma InItemReads(text: string)
    ensures FromHtml("<ul>" + ("<li>" + EscapeString(text) + "</li>") + "</ul>") ==
            Block(Doc, map[], [Block(BulletList, map[], [Block(ListItem, map[], if Blank(text) then [Block(Paragraph, map[], [])] else Shown(text))])])
  {
    var item := Block(ListItem, map[], [Plain(text)]);
    var list := Block(BulletList, map[], [item]);
    PlainMixed(text);
    ListIsLoose(list, item);
    hide FromHtml, EscapeString, PrintNodes, SettleBlocks, PrintNode, GatherAll, SettleItems, GatheredItems, Blank, TrimSpace, AllMixed, LooseBlock;
    PlainGathers(text);
    ItemSettles(item, []);
    PlainPrints(text);
    PrintOne(Plain(text));
    ListPrints(list, item, EscapeString(text));
    OneBlockReads(list);
  }

  lemma ListIsLoose(list: Node, item: Node)
    requires list.kind == BulletList && list.content == [item] && item.kind == ListItem && AllMixed(item.content)
    ensures LooseBlock(list)
  {
    hide Mixed;
  }

  lemma InQuoteReads(text: string)
    ensures FromHtml("<blockquote>" + EscapeString(text) + "</blockquote>") ==
            Block(Doc, map[], [Block(Blockquote, map[], Shown(text))])
  {
    var quote := Block(Blockquote, map[], [Plain(text)]);
    PlainMixed(text);
    QuoteIsLoose(quote);
    hide FromHtml, EscapeString, PrintNodes, SettleBlocks, SettleBlock, Gathered, GatherAll, Shown, AllMixed, LooseBlock, PrintNode;
    PlainGathers(text);
    PlainPrints(text);
    PrintOne(Plain(text));
    OneBlockReads(quote);
    QuotePrints(quote, EscapeString(text));
    QuoteSettles(quote);
  }

  lemma QuotePrints(quote: Node, inner: string)
    requires quote.kind == Blockquote && PrintNodes(quote.content) == inner
    ensures PrintNode(quote) == "<blockquote>" + inner + "</blockquote>"
  {
    hide PrintNodes;
    assert "<" + "blockquote" + ">" == "<blockquote>" && "</" + "blockquote" + ">" == "</blockquote>";
  }

  lemma QuoteSettles(quote: Node)
    requires quote.kind == Blockquote
    ensures SettleBlock(Gathered(quote)) == Block(Blockquote, map[], SettleBlocks(GatherAll([], quote.content)))
  {
    hide SettleBlocks, GatherAll;
  }

  lemma QuoteIsLoose(quote: Node)
    requires quote.kind == Blockquote && AllMixed(quote.content)
    ensures LooseBlock(quote)
  {
    hide Mixed;
  }

  lemma ListPrints(list: Node, item: Node, inner: string)
    requires list.kind == BulletList && list.content == [item] && item.kind == ListItem && PrintNodes(item.content) == inner
    ensures PrintNode(list) == "<ul>" + ("<li>" + inner + "</li>") + "</ul>"
  {
    hide PrintNodes;
    PrintOne(item);
    assert PrintNode(item) == Elem("li", "li", inner);
    assert PrintNode(list) == Elem("ul", "ul", PrintNode(item));
    assert "<" + "li" + ">" == "<li>" && "</" + "li" + ">" == "</li>" && "<" + "ul" + ">" == "<ul>" && "</" + "ul" + ">" == "</ul>";
  }
}
