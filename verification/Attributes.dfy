/** What each attribute is printed as, and read back as, told from the attribute alone. */
module Attributes {
  import opened Text
  import opened Escape
  import opened Adf
  import opened Storage
  import opened Markup
  import opened HtmlReader
  import opened StorageNested
  import opened Reading
  import opened Settle
  import opened RoundTripInline
  import opened RoundTripLeaves
  import opened Closing
  import opened PanelParts
  import opened PanelTitles
  import opened Gather
  import opened GatherCuts
  import opened RoundTrip
  import opened LooseText

  // ---- panels ----

  function MacroOpen(macro: string): string {
    "<ac:structured-macro ac:name=\"" + macro + "\">"
  }

  function ParameterOpen(name: string): string {
    "<ac:parameter ac:name=\"" + name + "\">"
  }

  const MACRO_END := "</ac:structured-macro>"

  predicate PrintsPanel(panel: Node, macro: string) {
    ToStorage(Block(Doc, map[], [panel])) ==
    MacroOpen(macro) + "<ac:rich-text-body>" + ToStorage(panel) + "</ac:rich-text-body>" + MACRO_END
  }

  predicate ReadsPanel(panel: Node, kind: string) {
    var doc := FromHtml(ToStorage(Block(Doc, map[], [panel])));
    |doc.content| == 1 && doc.content[0].kind == Panel && doc.content[0].attrs == map["panelType" := Str(kind)]
  }

  lemma Nested(a: string, b: string, c: string, d: string, e: string)
    ensures a + (b + c + d) + e == a + b + c + d + e
  {
  }

  lemma MacroTagText(macro: string)
    ensures "<" + MacroTag(macro) + ">" == MacroOpen(macro)
  {
  }

  lemma MacroTexts(macro: string, body: string)
    ensures Macro(macro, body) == MacroOpen(macro) + body + MACRO_END
  {
    MacroTagText(macro);
    hide MacroTag, MacroOpen;
    assert "</" + "ac:structured-macro" + ">" == MACRO_END;
  }

  lemma BodyText(body: string)
    ensures Elem(BODY, BODY, body) == "<ac:rich-text-body>" + body + "</ac:rich-text-body>"
  {
    assert "<" + BODY + ">" == "<ac:rich-text-body>" && "</" + BODY + ">" == "</ac:rich-text-body>";
  }

  lemma PanelText(macro: string, body: string)
    ensures Macro(macro, Elem(BODY, BODY, body)) ==
            MacroOpen(macro) + "<ac:rich-text-body>" + body + "</ac:rich-text-body>" + MACRO_END
  {
    hide Macro, Elem, MacroOpen;
    BodyText(body);
    MacroTexts(macro, Elem(BODY, BODY, body));
    Nested(MacroOpen(macro), "<ac:rich-text-body>", body, "</ac:rich-text-body>", MACRO_END);
  }

  lemma PanelIs(panel: Node)
    requires panel.kind == Panel && AllMixed(panel.content)
    ensures PrintsPanel(panel, PanelMacro(panel.attrs)) && ReadsPanel(panel, SettledKind(panel.attrs))
  {
    PanelLoose(panel);
    hide FromHtml, PanelMacro, SettledKind, PrintNodes, AllMixed, LooseBlock, SettleBlock, Gathered, Macro, Elem;
    PrintOne(panel);
    PanelText(PanelMacro(panel.attrs), PrintNodes(panel.content));
    OneBlockReads(panel);
    GatheredPanelSettles(panel);
  }

  lemma PanelLoose(panel: Node)
    requires panel.kind == Panel && AllMixed(panel.content)
    ensures LooseBlock(panel)
  {
    hide Mixed;
  }

  /**
   * Whatever the case of its kind and the space around it, a panel of information, a note, a warning
   * or a tip keeps its kind; an error is drawn and comes back as a warning, a success as a tip, and
   * any other as a panel without a kind of its own.
   */
  lemma PanelKinds(panel: Node)
    requires panel.kind == Panel && AllMixed(panel.content)
    ensures var word := ToLower(TrimSpace(StrAttr(panel.attrs, "panelType")));
            && (word == "info" ==> PrintsPanel(panel, "info") && ReadsPanel(panel, "info"))
            && (word == "note" ==> PrintsPanel(panel, "note") && ReadsPanel(panel, "note"))
            && (word == "warning" ==> PrintsPanel(panel, "warning") && ReadsPanel(panel, "warning"))
            && (word == "tip" ==> PrintsPanel(panel, "tip") && ReadsPanel(panel, "tip"))
            && (word == "error" ==> PrintsPanel(panel, "warning") && ReadsPanel(panel, "warning"))
            && (word == "success" ==> PrintsPanel(panel, "tip") && ReadsPanel(panel, "tip"))
            && (word !in {"info", "note", "warning", "tip", "error", "success"} ==>
                  PrintsPanel(panel, "panel") && ReadsPanel(panel, "custom"))
  {
    hide PrintsPanel, ReadsPanel, AllMixed;
    PanelIs(panel);
    KindTold(panel.attrs);
  }

  lemma KindTold(attrs: Attrs)
    ensures var word := ToLower(TrimSpace(StrAttr(attrs, "panelType")));
            && (word in {"info", "note", "warning", "tip"} ==> PanelMacro(attrs) == word && SettledKind(attrs) == word)
            && (word == "error" ==> PanelMacro(attrs) == "warning" && SettledKind(attrs) == "warning")
            && (word == "success" ==> PanelMacro(attrs) == "tip" && SettledKind(attrs) == "tip")
            && (word !in {"info", "note", "warning", "tip", "error", "success"} ==>
                  PanelMacro(attrs) == "panel" && SettledKind(attrs) == "custom")
  {
    hide ToLower, TrimSpace;
  }

  // ---- statuses ----

  /** A status is drawn, and comes back, in the colour it names, in any case and with any space around it, or in grey. */
  lemma StatusColours(attrs: Attrs, more: string)
    ensures var word := ToLower(TrimSpace(StrAttr(attrs, "color")));
            var colour := if word in {"grey", "red", "yellow", "green", "blue", "purple"} then word else "grey";
            && PrintNode(Leaf(Status, attrs)) ==
               MacroOpen("status") + ParameterOpen("colour") + colour + "</ac:parameter>" +
               (ParameterOpen("title") + EscapeString(StrAttr(attrs, "text")) + "</ac:parameter>") + MACRO_END
            && InlineOf(PrintNode(Leaf(Status, attrs)) + more) ==
               [Leaf(Status, map["text" := Str(TrimSpace(StrAttr(attrs, "text"))), "color" := Str(colour)])] + InlineOf(more)
  {
    hide InlineOf, ToLower, TrimSpace, EscapeString, StrAttr, MacroOpen, ParameterOpen, PrintStatus;
    ReadStatus(Leaf(Status, attrs), more);
    ColourTold(attrs);
    StatusText(attrs);
  }

  lemma ColourTold(attrs: Attrs)
    ensures var word := ToLower(TrimSpace(StrAttr(attrs, "color")));
            PanelStatusColour(attrs) == if word in {"grey", "red", "yellow", "green", "blue", "purple"} then word else "grey"
  {
    hide ToLower, TrimSpace, StrAttr;
  }

  lemma ParameterText(name: string, value: string)
    ensures Parameter(name, value) == ParameterOpen(name) + value + "</ac:parameter>"
  {
    assert "<" + Attr("ac:parameter", "ac:name", name) + ">" == ParameterOpen(name);
    assert "</" + "ac:parameter" + ">" == "</ac:parameter>";
  }

  lemma StatusText(attrs: Attrs)
    ensures PrintStatus(attrs) ==
            MacroOpen("status") + ParameterOpen("colour") + PanelStatusColour(attrs) + "</ac:parameter>" +
            (ParameterOpen("title") + EscapeString(StrAttr(attrs, "text")) + "</ac:parameter>") + MACRO_END
  {
    hide Macro, Parameter, MacroOpen, ParameterOpen, PanelStatusColour, EscapeString, StrAttr;
    var colour, title := PanelStatusColour(attrs), EscapeString(StrAttr(attrs, "text"));
    ParameterText("colour", colour);
    ParameterText("title", title);
    MacroTexts("status", Parameter("colour", colour) + Parameter("title", title));
    Nested(MacroOpen("status"), ParameterOpen("colour"), colour, "</ac:parameter>", "");
    Assoc(MacroOpen("status"), Parameter("colour", colour), Parameter("title", title));
  }

  // ---- headings ----

  /** A heading is of the level its attribute gives, rounded down, when it is a number from 1 to 6, and else of the first. */
  lemma HeadingLevels(heading: Node, level: nat)
    requires heading.kind == Heading && 1 <= level <= 6
    requires "level" in heading.attrs && heading.attrs["level"].Num? && 1.0 <= heading.attrs["level"].n <= 6.0
             && level as real <= heading.attrs["level"].n < level as real + 1.0
    ensures PrintNode(heading) == "<h" + Itoa(level) + ">" + ToStorage(heading) + "</h" + Itoa(level) + ">"
  {
    hide PrintNodes, Itoa;
    assert Level(heading.attrs) == level;
    assert "<" + ("h" + Itoa(level)) + ">" == "<h" + Itoa(level) + ">";
    assert "</" + ("h" + Itoa(level)) + ">" == "</h" + Itoa(level) + ">";
  }

  lemma OtherHeadings(heading: Node)
    requires heading.kind == Heading
    requires "level" in heading.attrs ==> !heading.attrs["level"].Num? || heading.attrs["level"].n < 1.0 || heading.attrs["level"].n > 6.0
    ensures PrintNode(heading) == "<h1>" + ToStorage(heading) + "</h1>"
  {
    hide PrintNodes;
    assert Itoa(1) == "1";
    assert "<" + ("h" + "1") + ">" == "<h1>" && "</" + ("h" + "1") + ">" == "</h1>";
  }

  // ---- tasks ----

  /** A task is named by its own id, or by its place when it has none, and is done exactly when its state says so. */
  lemma TasksTold(item: Node, place: nat)
    requires item.kind == TaskItem
    ensures var id := if StrAttr(item.attrs, "localId") == "" then Itoa(place + 1) else StrAttr(item.attrs, "localId");
            var done := StrAttr(item.attrs, "state") == "DONE";
            && PrintItem(item, place) ==
               Elem("ac:task", "ac:task",
                    Elem("ac:task-id", "ac:task-id", EscapeString(id)) +
                    Elem("ac:task-status", "ac:task-status", if done then "complete" else "incomplete") +
                    Elem("ac:task-body", "ac:task-body", ToStorage(item)))
            && SettleTask(item, place).attrs ==
               map["localId" := Str(TrimSpace(id)), "state" := Str(if done then "DONE" else "TODO")]
  {
    hide Elem, EscapeString, Itoa, PrintNodes, TrimSpace, SettleInline;
    var attrs := NamedAttrs(item, place);
    assert TaskState(attrs) == if StrAttr(item.attrs, "state") == "DONE" then "complete" else "incomplete";
  }

  // ---- emoji ----

  /** An emoji is written as its own text, or as its short name between colons. */
  lemma EmojiTold(emoji: Node)
    requires emoji.kind == Emoji
    ensures PrintNode(emoji) ==
            if StrAttr(emoji.attrs, "text") != "" then EscapeString(StrAttr(emoji.attrs, "text"))
            else ":" + EscapeString(StrAttr(emoji.attrs, "shortcode")) + ":"
  {
    hide EscapeString;
  }

  // ---- links ----

  predicate SchemeChar(c: char) {
    IsLetter(c) || IsDigit(c) || c in "+-."
  }

  /** A scheme: a letter, and then letters, digits and three signs. */
  predicate IsScheme(s: string) {
    s != "" && IsLetter(s[0]) && forall c :: c in s ==> SchemeChar(c)
  }

  predicate Clean(raw: string) {
    raw != "" && TrimSpace(raw) == raw && forall c :: c in raw ==> c >= ' ' && c != '\U{7F}'
  }

  lemma {:induction false} SchemeOf(raw: string, k: nat, i: nat)
    requires i <= k < |raw| && raw[k] == ':' && IsScheme(raw[..k])
    ensures Scheme(raw, i) == Some(raw[..k])
    decreases k - i
  {
    assert forall j :: 0 <= j < k ==> raw[j] == raw[..k][j] && raw[j] in raw[..k];
    if i < k {
      SchemeOf(raw, k, i + 1);
    }
  }

  lemma {:induction false} NoScheme(raw: string, i: nat)
    requires i <= |raw| && ':' !in raw
    ensures Scheme(raw, i) == Some("")
    decreases |raw| - i
  {
    if i < |raw| {
      assert raw[i] in raw;
      NoScheme(raw, i + 1);
    }
  }

  /** What stands before the first colon is no scheme. */
  lemma {:induction false} OtherColon(raw: string, k: nat, i: nat)
    requires i <= k < |raw| && raw[k] == ':' && !IsScheme(raw[..k]) && k > 0
    requires (forall j :: 0 <= j < i ==> SchemeChar(raw[j])) && (i > 0 ==> IsLetter(raw[0])) && ':' !in raw[..k]
    ensures Scheme(raw, i) == Some("")
    decreases k - i
  {
    assert i < k by {
      if i == k { SchemeWhole(raw, k); }
    }
    assert raw[..k][i] == raw[i] && raw[i] in raw[..k];
    if IsLetter(raw[i]) || (i > 0 && SchemeChar(raw[i])) {
      OtherColon(raw, k, i + 1);
    }
  }

  lemma SchemeWhole(raw: string, k: nat)
    requires 0 < k < |raw| && IsLetter(raw[0]) && forall j :: 0 <= j < k ==> SchemeChar(raw[j])
    ensures IsScheme(raw[..k])
  {
  }

  /**
   * An empty address, or one with space around it or a control character in it, is dropped. Of the
   * others, one that begins with a scheme is kept when the scheme is of the web or of mail, in any case;
   * one that begins with a colon is not; and any other is kept.
   */
  lemma AddressesKept(raw: string, k: nat)
    ensures !Clean(raw) ==> SafeHref(raw) == ""
    ensures Clean(raw) && ':' !in raw ==> SafeHref(raw) == raw
    ensures Clean(raw) && k < |raw| && raw[k] == ':' && ':' !in raw[..k] ==>
              SafeHref(raw) == (if k == 0 || (IsScheme(raw[..k]) && ToLower(raw[..k]) !in {"http", "https", "mailto"}) then "" else raw)
  {
    hide TrimSpace, ToLower;
    assert HasControl(raw) <==> exists c :: c in raw && (c < ' ' || c == '\U{7F}');
    if ':' !in raw { NoScheme(raw, 0); }
    if k < |raw| && raw[k] == ':' && ':' !in raw[..k] && k > 0 {
      if IsScheme(raw[..k]) {
        SchemeOf(raw, k, 0);
        LowerNothing(raw[..k]);
      } else {
        OtherColon(raw, k, 0);
        LowerNothing("");
      }
    }
    LowerNothing("");
  }

  lemma LowerNothing(s: string)
    ensures ToLower(s) == "" <==> s == ""
  {
  }

  // ---- marks that are read and never written ----

  const READ_MARKS: map<string, MarkKind> :=
    map["strong" := Strong, "b" := Strong, "em" := Em, "i" := Em, "code" := Code, "s" := Strike, "del" := Strike, "u" := Underline]

  lemma MarkNamed(name: string)
    requires name in READ_MARKS
    ensures PlainName(name) && MarkFor(name) == Some(READ_MARKS[name]) && name != "br" && name != ""
  {
    var names := {"strong", "b", "em", "i", "code", "s", "del", "u"};
    assert name in names;
  }

  /** Text in an element that stands for a mark comes back with that mark. */
  lemma MarksAreRead(name: string, text: string)
    requires name in READ_MARKS && !Blank(text)
    ensures FromHtml("<p>" + ("<" + name + ">" + EscapeString(text) + "</" + name + ">") + "</p>") ==
            Block(Doc, map[], [Block(Paragraph, map[], [TextNode(text, [Mark(READ_MARKS[name], map[])])])])
  {
    hide BlocksOf, InlineOf, EscapeString, PlainName, Blank, MarkFor, WellNested, BlockOf, Flush;
    MarkNamed(name);
    var inner := Elem(name, name, EscapeString(text));
    ReadText(text);
    EscapedNested(text);
    assert Marked(text, []) == TextOf(text);
    ReadWrap(true, name, READ_MARKS[name], EscapeString(text), text, []);
    assert [] + [Mark(READ_MARKS[name], map[])] == [Mark(READ_MARKS[name], map[])];
    ParagraphAlone(inner);
  }

  lemma NothingRead()
    ensures BlocksOf("", "") == []
  {
  }

  lemma ParagraphAlone(inner: string)
    requires WellNested(inner)
    ensures FromHtml("<p>" + inner + "</p>") == Block(Doc, map[], [Block(Paragraph, map[], InlineOf(inner))])
  {
    hide BlocksOf, InlineOf, WellNested, BlockOf, Flush;
    BlockNames();
    TextBlocks(inner);
    ReadPlainBlock("p", inner, Block(Paragraph, map[], InlineOf(inner)), "", "");
    FlushEmpty();
    NothingRead();
    assert Elem("p", "p", inner) + "" == "<p>" + inner + "</p>";
  }

  // ---- what the reader takes and the printer never writes ----

  /** A panel's macro that has a title, as the storage format writes it. */
  function TitledPanel(title: string, body: Node): string {
    Parameter("title", EscapeString(title)) + Elem(BODY, BODY, PrintNode(body))
  }

  lemma TitledParts(title: string, body: Node)
    requires !HasPanel(body)
    ensures WellNested(TitledPanel(title, body))
    ensures MacroParameter(TitledPanel(title, body), "title") == TrimSpace(title)
    ensures MacroBody(TitledPanel(title, body), BODY) == PrintNode(body)
  {
    hide WellNested, Complete, Tags, Elem, Parameter, PrintAs, EscapeString, UnescapeString, TrimSpace, MacroParameter, MacroBody, Index, Attr;
    var p, e, markup := Parameter("title", EscapeString(title)), EscapeString(title), PrintNode(body);
    EscapeIsInert(title);
    EscapeTrim(title);
    StatusNames();
    MacroNames();
    ParameterNested("title", e);
    NestedComplete(p);
    TitleTags();
    assert Free(body, BODY_END);
    AvoidsNode(body, body.attrs, BODY_END);
    NestedSimple(BODY, markup);
    NestedConcat(p, Elem(BODY, BODY, markup));
    NothingComplete();
    ParameterAt("", "title", e, Elem(BODY, BODY, markup));
    assert "" + p == p;
    BodyBehind(p, markup);
  }

  lemma TitleTags()
    ensures BODY !in [Attr("ac:parameter", "ac:name", "title"), "/ac:parameter"]
  {
    MarkerFacts();
    assert |BODY| == 17 && |"/ac:parameter"| == 13;
  }

  lemma NothingComplete()
    ensures Complete("") && Tags("") == []
  {
  }

  /** The body behind markup that has none. */
  lemma BodyBehind(p: string, markup: string)
    requires Avoids(markup, BODY_END) && Complete(p) && BODY !in Tags(p)
    ensures MacroBody(p + Elem(BODY, BODY, markup), BODY) == markup
  {
    hide Complete, Tags, Index, WellNested;
    NestedComplete(markup);
    BodyEnd();
    MacroNames();
    NameInert(BODY);
    var close := "</" + BODY + ">";
    var rest := markup + close;
    FirstTag(p, BODY, rest);
    FirstTag(markup, BODY_END, "");
    BodyAt(p, markup, "<" + BODY + ">", close, BODY);
  }

  lemma BodyAt(p: string, markup: string, open: string, close: string, name: string)
    requires open == "<" + name + ">" && close == "</" + name + ">"
    requires Index(p + open + (markup + close), open) == |p| && Index(markup + close + "", close) == |markup|
    ensures MacroBody(p + Elem(name, name, markup), name) == markup
  {
    hide Index;
    var inner := p + Elem(name, name, markup);
    assert inner == p + open + (markup + close);
    assert inner[|p| + |open|..] == markup + close && markup + close + "" == markup + close;
    assert (markup + close)[..|markup|] == markup;
  }

  lemma InfoTag()
    ensures var tag, name := MacroTag("info"), "ac:structured-macro"; OpenTag(tag, name) && PlainName(name) && TagName(tag) == name
  {
    hide OpenTag, TagName, Attr;
    MacroNames();
    assert PlainName("info");
    hide PlainName;
    NameInert("info");
    AttributeTag("ac:structured-macro", "ac:name", "info");
    TagNameAttr("ac:structured-macro", "ac:name", "info");
  }

  lemma InfoName()
    ensures PlainName("info") && PanelKindOf("info") == Some("info")
  {
  }

  lemma InfoBlock(inner: string)
    ensures BlockOf("ac:structured-macro", MacroTag("info"), inner) ==
            Some(Block(Panel, map["panelType" := Str("info")], PanelTitle(MacroParameter(inner, "title")) + BlocksOf(MacroBody(inner, BODY), "")))
  {
    hide BlockOf, BlocksOf, MacroParameter, MacroBody, PanelTitle, AttributeValue, PlainName, MacroTag;
    InfoName();
    MacroTagReads("info");
    PlainReads("info");
    MacroBlock(MacroTag("info"), "info", inner);
  }

  /** The title of a panel, read from a macro that has one, is a bold line of its own before the panel's body. */
  lemma TitlesAreBold(title: string, body: Node)
    requires TrimSpace(title) != "" && LooseBlock(body) && !HasPanel(body)
    ensures FromHtml(Macro("info", TitledPanel(title, body))) ==
            Block(Doc, map[], [Block(Panel, map["panelType" := Str("info")],
                                     [Block(Paragraph, map[], [TextNode(TrimSpace(title), [Mark(Strong, map[])])]), SettleBlock(Gathered(body))])])
  {
    hide BlocksOf, BlockOf, TitledPanel, WellNested, OpenTag, TagName, MacroTag, SettleBlock, Gathered, LooseBlock, HasPanel, TrimSpace, MacroParameter, MacroBody, PrintNode, Flush;
    var inner := TitledPanel(title, body);
    TitledParts(title, body);
    InfoTag();
    InfoBlock(inner);
    BlockReads(body, "", "");
    FlushEmpty();
    NothingRead();
    assert PrintNode(body) + "" == PrintNode(body);
    var line := Block(Paragraph, map[], [TextNode(TrimSpace(title), [Mark(Strong, map[])])]);
    assert [line] + ([] + [SettleBlock(Gathered(body))] + []) == [line, SettleBlock(Gathered(body))];
    var panel := Block(Panel, map["panelType" := Str("info")], [line, SettleBlock(Gathered(body))]);
    ReadBlock(MacroTag("info"), "ac:structured-macro", inner, panel, "", "");
    assert Macro("info", inner) + "" == Macro("info", inner);
    assert [] + [panel] + [] == [panel];
  }

  predicate Addressed(m: Mark) {
    m.kind.Link? && "href" in m.attrs && m.attrs["href"].Str?
  }

  /** Of several links on a text the last one with an address decides. */
  lemma {:induction false} LastLinkDecides(before: seq<Mark>, m: Mark, after: seq<Mark>)
    requires Addressed(m) && forall l :: l in after ==> !Addressed(l)
    ensures LinkOf(before + [m] + after) == SafeHref(m.attrs["href"].s)
  {
    hide SafeHref;
    var marks := before + [m] + after;
    if after == [] {
      assert marks == before + [m];
    } else {
      var n := |after| - 1;
      LastLinkDecides(before, m, after[..n]);
      assert marks[..|marks| - 1] == before + [m] + after[..n] && marks[|marks| - 1] == after[n];
      assert after[n] in after;
    }
  }

  /** Comments, declarations and close tags that close nothing are passed over. */
  lemma StrayTagsArePassed(tag: string, more: string)
    requires tag != "" && (tag[0] == '!' || tag[0] == '/') && '>' !in tag
    ensures InlineOf("<" + tag + ">" + more) == InlineOf(more)
  {
    hide InlineOf, ClosingIn, ToLower;
    var s := "<" + tag + ">" + more;
    assert s == ("<" + tag) + [">"[0]] + more;
    IndexByteAfter("<" + tag, '>', more);
    assert s[1..|tag| + 1] == tag && s[|tag| + 2..] == more;
    if tag[0] == '/' { CloseHasNoName(tag); }
    assert ElementOf(s) == Element("", "", "", |tag| + 2);
    InlineRound(s);
    InlineText("", "");
    NoText();
  }

  lemma NoText()
    ensures TextNodes("") == []
  {
  }

  lemma CloseHasNoName(tag: string)
    requires tag != "" && tag[0] == '/'
    ensures TagName(tag) == ""
  {
    hide UpToSpace, ToLower;
    assert TrimLeft(tag) == tag;
    var t := TrimSpace(tag);
    if t != "" { assert t[0] == tag[0]; }
  }

  lemma {:induction false} NameUpToSpace(shown: string, rest: string)
    requires forall c :: c in shown ==> c !in " \t\n"
    requires rest == "" || rest[0] in " \t\n"
    ensures UpToSpace(shown + rest) == shown
  {
    if shown != "" {
      assert (shown + rest)[1..] == shown[1..] + rest;
      NameUpToSpace(shown[1..], rest);
    } else {
      assert shown + rest == rest;
    }
  }

  lemma ShownName(shown: string)
    requires PlainName(ToLower(shown))
    ensures shown != "" && forall c :: c in shown ==> !IsSpace(c) && c !in " \t\n" && c != '/'
  {
    forall c | c in shown ensures NameChar(Lower(c)) {
      var i :| 0 <= i < |shown| && shown[i] == c;
      assert ToLower(shown)[i] in ToLower(shown);
    }
  }

  /** A tag's name is what stands before any space, in any case. */
  lemma NamesInAnyCase(shown: string, rest: string)
    requires PlainName(ToLower(shown)) && (rest == "" || (rest[0] in " \t\n" && !IsSpace(rest[|rest| - 1])))
    ensures TagName(shown + rest) == ToLower(shown)
  {
    hide ToLower, PlainName;
    ShownName(shown);
    var tag := shown + rest;
    assert tag[0] == shown[0] && shown[0] in shown;
    assert shown[|shown| - 1] in shown;
    assert tag[|tag| - 1] == if rest == "" then shown[|shown| - 1] else rest[|rest| - 1];
    NoTrim(tag);
    NameUpToSpace(shown, rest);
    assert TrimSlash(shown) == shown;
  }
}
