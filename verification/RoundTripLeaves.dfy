/** Statuses, dates and breaks read back, and with them all inline content. */
module RoundTripLeaves {
  import opened Text
  import opened Escape
  import opened Adf
  import opened Calendar
  import opened Decimals
  import opened Storage
  import opened Markup
  import opened HtmlReader
  import opened StorageNested
  import opened Reading
  import opened Settle
  import opened RoundTripInline

  // ---- text that escaping leaves alone ----

  lemma {:induction false} EscapeKeeps(s: string)
    requires forall c :: c in s ==> c !in "<>&'\""
    ensures EscapeString(s) == s
  {
    if s != "" {
      assert s[0] in s;
      EscapeKeeps(s[1..]);
    }
  }

  lemma PlainReads(name: string)
    requires PlainName(name)
    ensures EscapeString(name) == name && UnescapeString(name) == name
    ensures TrimSpace(name) == name && ToLower(name) == name
  {
    assert forall c :: NameChar(c) ==> c !in "<>&'\"";
    EscapeKeeps(name);
    EscapeRoundTrip(name);
    PlainFacts(name);
    NoTrim(name);
  }

  lemma DayReads(c: Civil)
    requires Valid(c)
    ensures UnescapeString(CivilText(c)) == CivilText(c)
  {
    hide CivilText, UnescapeString, EscapeString;
    assert forall d :: IsDigit(d) || d == '-' ==> d !in "<>&'\"";
    EscapeKeeps(CivilText(c));
    EscapeRoundTrip(CivilText(c));
  }

  lemma ColourReads(colour: string)
    requires StatusColour(colour)
    ensures PlainName(colour)
  {
  }

  // ---- macro parameters ----

  /** A parameter behind markup without one of its name. */
  lemma ParameterAt(pre: string, name: string, value: string, rest: string)
    requires Complete(pre) && Attr("ac:parameter", "ac:name", name) !in Tags(pre)
    requires PlainName(name) && '<' !in value
    ensures MacroParameter(pre + Parameter(name, value) + rest, name) == UnescapeString(TrimSpace(value))
  {
    hide Complete, Tags, Index, Attr, TrimSpace, UnescapeString;
    var tag := Attr("ac:parameter", "ac:name", name);
    MacroNames();
    NameInert(name);
    AttributeTag("ac:parameter", "ac:name", name);
    var behind := value + "</ac:parameter>" + rest;
    var inner := pre + Parameter(name, value) + rest;
    ParameterParts(pre, tag, value, rest);
    FirstTag(pre, tag, behind);
    assert inner[|pre| + |tag| + 2..] == behind;
    IndexAfter(value, "</ac:parameter>", rest);
    assert behind[..|value|] == value;
  }

  lemma ParameterParts(pre: string, tag: string, value: string, rest: string)
    ensures pre + Elem(tag, "ac:parameter", value) + rest ==
            pre + ("<" + tag + ">") + (value + "</ac:parameter>" + rest)
  {
    assert "</" + "ac:parameter" + ">" == "</ac:parameter>";
  }

  lemma FirstParameter(colour: string, rest: string)
    requires PlainName(colour)
    ensures MacroParameter(Parameter("colour", colour) + rest, "colour") == colour
  {
    hide MacroParameter, Parameter, Attr, PlainName, ToLower, TrimSpace, EscapeString, UnescapeString;
    StatusNames();
    PlainReads(colour);
    NameInert(colour);
    assert Complete("") && Tags("") == [];
    hide Complete, Tags;
    ParameterAt("", "colour", colour, rest);
    var p := Parameter("colour", colour);
    assert "" + p == p;
  }

  lemma SecondParameter(colour: string, title: string)
    requires PlainName(colour) && '<' !in title
    ensures MacroParameter(Parameter("colour", colour) + Parameter("title", title), "title") ==
            UnescapeString(TrimSpace(title))
  {
    hide MacroParameter, Parameter, Attr, PlainName, UnescapeString, TrimSpace;
    StatusNames();
    NameInert(colour);
    ParameterNested("colour", colour);
    NestedComplete(Parameter("colour", colour));
    ColourIsNoTitle();
    ParameterAt(Parameter("colour", colour), "title", title, "");
    assert Parameter("colour", colour) + Parameter("title", title) + "" ==
           Parameter("colour", colour) + Parameter("title", title);
  }

  function StatusInside(attrs: Attrs): string {
    Parameter("colour", PanelStatusColour(attrs)) + Parameter("title", EscapeString(StrAttr(attrs, "text")))
  }

  lemma StatusParts(attrs: Attrs)
    ensures MacroParameter(StatusInside(attrs), "colour") == PanelStatusColour(attrs)
    ensures MacroParameter(StatusInside(attrs), "title") == TrimSpace(StrAttr(attrs, "text"))
  {
    hide MacroParameter, Parameter, PanelStatusColour, PlainName, UnescapeString, TrimSpace, StrAttr, StatusColour;
    ColourReads(PanelStatusColour(attrs));
    FirstParameter(PanelStatusColour(attrs), Parameter("title", EscapeString(StrAttr(attrs, "text"))));
    EscapeIsInert(StrAttr(attrs, "text"));
    SecondParameter(PanelStatusColour(attrs), EscapeString(StrAttr(attrs, "text")));
    EscapeTrim(StrAttr(attrs, "text"));
  }

  lemma ColourIsNoTitle()
    ensures Attr("ac:parameter", "ac:name", "title") !in [Attr("ac:parameter", "ac:name", "colour"), "/ac:parameter"]
  {
    assert |Attr("ac:parameter", "ac:name", "title")| == 28;
    assert |Attr("ac:parameter", "ac:name", "colour")| == 29;
  }

  lemma MacroTagReads(name: string)
    requires PlainName(name)
    ensures AttributeValue(MacroTag(name), "ac:name") == name
  {
    hide AttributeValue, Attr;
    MacroNames();
    PlainReads(name);
    NameInert(name);
    AttributeIs("ac:structured-macro", "ac:name", name, "");
    assert MacroTag(name) + "" == MacroTag(name);
  }

  lemma ReadStatus(n: Node, more: string)
    requires n.kind == Status
    ensures InlineOf(PrintStatus(n.attrs) + more) == [SettleStatus(n.attrs)] + InlineOf(more)
    ensures PrintStatus(n.attrs) + more != "" && (PrintStatus(n.attrs) + more)[0] == '<'
  {
    hide InlineOf, InlineElement, WellNested, Parameter, Elem, Attr;
    var inner := StatusInside(n.attrs);
    StatusNested(n.attrs);
    StatusInner(n.attrs);
    MacroNames();
    StatusNames();
    NameInert("status");
    ReadAttr("ac:structured-macro", "ac:name", "status", inner, more);
    MacroTagReads("status");
    StatusElement(n.attrs, MacroTag("status"), inner);
    ElemStarts(MacroTag("status"), "ac:structured-macro", inner, more);
  }

  lemma ElemStarts(tag: string, name: string, body: string, more: string)
    ensures Elem(tag, name, body) + more != "" && (Elem(tag, name, body) + more)[0] == '<'
  {
  }

  lemma StatusInner(attrs: Attrs)
    ensures WellNested(StatusInside(attrs))
  {
    hide WellNested, Parameter, PanelStatusColour;
    StatusNames();
    ColourIsText(attrs);
    EscapeIsInert(StrAttr(attrs, "text"));
    ParameterNested("colour", PanelStatusColour(attrs));
    ParameterNested("title", EscapeString(StrAttr(attrs, "text")));
    NestedConcat(Parameter("colour", PanelStatusColour(attrs)), Parameter("title", EscapeString(StrAttr(attrs, "text"))));
  }

  lemma StatusElement(attrs: Attrs, tag: string, inner: string)
    requires AttributeValue(tag, "ac:name") == "status" && inner == StatusInside(attrs)
    ensures InlineElement("ac:structured-macro", tag, inner) == [SettleStatus(attrs)]
  {
    hide AttributeValue, StatusNode, SettleStatus;
    StatusNodeIs(attrs);
    StatusNames();
    PlainReads("status");
    StatusMacro(tag, inner);
  }

  lemma StatusMacro(tag: string, inner: string)
    requires ToLower(AttributeValue(tag, "ac:name")) == "status"
    ensures InlineElement("ac:structured-macro", tag, inner) == [StatusNode(inner)]
  {
    hide InlineOf, AttributeValue, StatusNode;
  }

  lemma StatusNodeIs(attrs: Attrs)
    ensures StatusNode(StatusInside(attrs)) == SettleStatus(attrs)
  {
    hide MacroParameter, StatusInside, PanelStatusColour, PlainName, TrimSpace, StrAttr, StatusColour;
    StatusParts(attrs);
    ColourReads(PanelStatusColour(attrs));
    PlainReads(PanelStatusColour(attrs));
  }

  // ---- dates and breaks ----

  lemma ReadDate(attrs: Attrs, more: string)
    requires Moment(attrs).Some?
    ensures InlineOf(PrintDate(attrs) + more) == SettleDate(attrs) + InlineOf(more)
    ensures PrintDate(attrs) + more != "" && (PrintDate(attrs) + more)[0] == '<'
  {
    hide InlineOf, InlineElement, Attr, CivilText, DayAt, Moment, TagName, AttributeValue, Midnight, ParseDay;
    var day := DayAt(Moment(attrs).value);
    var text := CivilText(day);
    InlineNames();
    DayInert(day);
    var tag := Attr("time", "datetime", text) + " /";
    TimeTagShape(text);
    TagNameAttr("time", "datetime", text);
    ReadEmpty(tag, "time", more);
    AttributeIs("time", "datetime", text, " /");
    DayReads(day);
    TimeElement(tag);
    ParseCivilText(day);
  }

  lemma TimeTagShape(day: string)
    requires '>' !in day
    ensures var tag := Attr("time", "datetime", day) + " /"; '>' !in tag && tag[0] == 't' && SelfCloses(tag)
  {
  }

  lemma TimeElement(tag: string)
    ensures InlineElement("time", tag, "") == DateNodes(ParseDay(AttributeValue(tag, "datetime")))
  {
    hide InlineOf, AttributeValue, ParseDay, DateNodes;
  }

  /** A day that is read from a date element is written back as it stood. */
  lemma DateReadPrints(text: string)
    requires ParseDay(text).Some?
    ensures var date := DateNodes(ParseDay(text))[0];
            date.kind == Date && PrintNode(date) == "<" + (Attr("time", "datetime", text) + " /") + ">"
  {
    hide ParseDay, CivilText, Midnight, IntText, Atoi, Attr;
    var day := ParseDay(text).value;
    var attrs := map["timestamp" := Str(IntText(Midnight(day)))];
    TextOfParsed(text);
    DayOfMidnight(day);
    MidnightFits(day);
    AtoiOfIntText(Midnight(day));
    assert Moment(attrs) == Some(Midnight(day));
    hide Moment, DayAt;
    assert PrintDate(attrs) == "<" + (Attr("time", "datetime", text) + " /") + ">";
  }

  lemma ReadBreak(more: string)
    ensures InlineOf("<br/>" + more) == [Leaf(HardBreak, map[])] + InlineOf(more)
  {
    hide InlineOf, TagName;
    assert PlainName("br");
    TagNameClosed("br");
    hide PlainName;
    assert "<" + ("br" + "/") + ">" == "<br/>";
    ReadEmpty("br" + "/", "br", more);
  }

  // ---- all inline content ----

  /** What a node that is more than plain characters reads as, before anything else. */
  lemma LeafReads(n: Node, more: string)
    requires InlineKind(n.kind) && PlainRun(n).None?
    ensures InlineOf(PrintNode(n) + more) == SettleLeaf(n) + InlineOf(more)
    ensures PrintNode(n) + more != "" && (PrintNode(n) + more)[0] == '<'
  {
    hide InlineOf, PrintText, PrintMention, PrintStatus, SettleMention, SettleStatus, SettleMarks, Attr, SettleDate, PrintDate, Moment;
    match n.kind
    case Text => ReadMarked(n, more);
    case Mention => ReadMention(n, more);
    case Status => ReadStatus(n, more);
    case HardBreak => ReadBreak(more);
    case Date => ReadDate(n.attrs, more);
  }

  lemma RunPrints(n: Node)
    requires PlainRun(n).Some?
    ensures PrintNode(n) == EscapeString(PlainRun(n).value)
  {
    hide PanelMacro, PanelStatusColour;
    match n.kind
    case Text => UnmarkedPrints(n);
    case Emoji => EmojiPrints(n.attrs);
    case Media => EscapeKeeps("[attachment]");
    case Date =>
  }

  lemma UnmarkedPrints(n: Node)
    requires SettleMarks(n.marks) == []
    ensures PrintText(n) == EscapeString(n.text)
  {
  }

  lemma EmojiPrints(attrs: Attrs)
    ensures PrintEmoji(attrs) == EscapeString(EmojiText(attrs))
  {
    var short := StrAttr(attrs, "shortcode");
    EscapeConcat(":" + short, ":");
    EscapeConcat(":", short);
    EscapeKeeps(":");
  }

  lemma {:induction false} InlineSettles(run: string, ns: seq<Node>)
    requires AllInline(ns)
    ensures InlineOf(EscapeString(run) + PrintNodes(ns)) == SettleInline(run, ns)
    decreases |ns|
  {
    hide InlineOf, PrintNode, EscapeString, SettleLeaf, PlainRun, TextOf;
    if ns == [] {
      ReadText(run);
      assert EscapeString(run) + "" == EscapeString(run);
    } else {
      var n, rest := ns[0], PrintNodes(ns[1..]);
      assert n in ns;
      if PlainRun(n).Some? {
        RunPrints(n);
        EscapeConcat(run, PlainRun(n).value);
        Assoc(EscapeString(run), PrintNode(n), rest);
        InlineSettles(run + PlainRun(n).value, ns[1..]);
      } else {
        LeafReads(n, rest);
        ReadRun(run, PrintNode(n) + rest);
        InlineSettles("", ns[1..]);
        EmptyEscape(rest);
        hide SettleInline;
        assert TextOf(run) + SettleLeaf(n) + InlineOf(rest) == TextOf(run) + (SettleLeaf(n) + InlineOf(rest));
      }
    }
  }

  lemma EmptyEscape(rest: string)
    ensures EscapeString("") + rest == rest
  {
  }

  /** Inline content printed and read back. */
  lemma InlineRoundTrip(ns: seq<Node>)
    requires AllInline(ns)
    ensures InlineOf(PrintNodes(ns)) == SettleInline("", ns)
  {
    hide InlineOf, PrintNodes, SettleInline;
    InlineSettles("", ns);
    EmptyEscape(PrintNodes(ns));
  }
}
