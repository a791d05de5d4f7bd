/** Inline content among blocks is set aside, as it stands, until a block follows or the markup ends. */
module LooseReading {
  import opened Text
  import opened Escape
  import opened Adf
  import opened Calendar
  import opened Storage
  import opened Markup
  import opened HtmlReader
  import opened StorageNested
  import opened Reading
  import opened Settle
  import opened RoundTripInline
  import opened RoundTripLeaves
  import opened Gather

  // ---- text ----

  lemma NoElementIn(s: string)
    requires '<' !in s
    ensures ElementOf(s).NoElement?
  {
  }

  lemma LooseToEnd(s: string, loose: string)
    requires '<' !in s
    ensures BlocksOf(s, loose) == Flush(loose + s)
  {
    hide ElementOf, BlockOf, Flush;
    NoElementIn(s);
    if s == "" { assert loose + s == loose; }
  }

  lemma LooseUpTo(text: string, more: string, loose: string)
    requires '<' !in text && more != "" && more[0] == '<'
    ensures BlocksOf(text + more, loose) == BlocksOf(more, loose + text)
  {
    hide ElementOf, BlockOf, Flush, BlocksOf;
    if text == "" {
      assert text + more == more && loose + text == loose;
    } else {
      TextAt(text, more);
      BlocksRound(text + more, loose);
      BlockNeedsName("", text);
      assert (text + more)[..|text|] == text;
    }
  }

  /** Text is set aside. */
  lemma TextShift(text: string, more: string, loose: string)
    requires '<' !in text
    ensures BlocksOf(text + more, loose) == BlocksOf(more, loose + text)
  {
    hide ElementOf, BlockOf, Flush, BlocksOf;
    var k := IndexByte(more, '<');
    if k < 0 {
      LooseToEnd(text + more, loose);
      LooseToEnd(more, loose + text);
      Assoc(loose, text, more);
    } else {
      var rest := more[k..];
      assert more == more[..k] + rest;
      LooseUpTo(text + more[..k], rest, loose);
      LooseUpTo(more[..k], rest, loose + text);
      Assoc(text, more[..k], rest);
      Assoc(loose, text, more[..k]);
    }
  }

  // ---- elements that are no blocks ----

  predicate StandsLoose(s: string, more: string) {
    var e := ElementOf(s + more);
    e.Element? && e.used == |s| && BlockOf(e.name, e.tag, e.inner).None?
  }

  /** So are they. */
  lemma ElementShift(s: string, more: string, loose: string)
    requires StandsLoose(s, more)
    ensures BlocksOf(s + more, loose) == BlocksOf(more, loose + s)
  {
    hide ElementOf, BlockOf, Flush, BlocksOf;
    BlocksRound(s + more, loose);
    assert (s + more)[|s|..] == more && (s + more)[..|s|] == s;
  }

  lemma ElemLoose(tag: string, name: string, body: string, more: string)
    requires OpenTag(tag, name) && PlainName(name) && TagName(tag) == name && WellNested(body)
    requires BlockOf(name, tag, body).None?
    ensures StandsLoose(Elem(tag, name, body), more)
  {
    hide ElementOf, BlockOf, TagName, WellNested, OpenTag, PlainName, Elem;
    ElementAt(tag, name, body, more);
  }

  lemma SimpleLoose(name: string, body: string, more: string)
    requires PlainName(name) && WellNested(body) && BlockOf(name, name, body).None?
    ensures StandsLoose(Elem(name, name, body), more)
  {
    hide BlockOf, TagName, WellNested, OpenTag, PlainName, Elem, StandsLoose;
    TagNameSimple(name);
    OpenTagIs(name, "");
    assert name + "" == name;
    ElemLoose(name, name, body, more);
  }

  lemma EmptyLoose(tag: string, name: string, more: string)
    requires '>' !in tag && SelfCloses(tag) && TagName(tag) == name && PlainName(name) && tag[0] != '!'
    requires BlockOf(name, tag, "").None?
    ensures StandsLoose("<" + tag + ">", more)
  {
    hide ElementOf, BlockOf, TagName;
    EmptyAt(tag, name, more);
  }

  lemma NoBlocks(tag: string, inner: string)
    ensures BlockOf("em", tag, inner).None? && BlockOf("strong", tag, inner).None? && BlockOf("code", tag, inner).None?
    ensures BlockOf("a", tag, inner).None? && BlockOf("ac:link", tag, inner).None? && BlockOf("br", tag, inner).None?
    ensures BlockOf("time", tag, inner).None?
  {
  }

  lemma MarkedLoose(n: Node, more: string)
    requires SettleMarks(n.marks) != []
    ensures StandsLoose(PrintText(n), more)
  {
    hide StandsLoose, WellNested, LinkOf, HasMark, Elem, Attr, EscapeString, PlainName, TagName, OpenTag, BlockOf;
    InlineNames();
    EscapedNested(n.text);
    var link := LinkOf(n.marks);
    LinkNested(link, EscapeString(n.text));
    var linked := PrintLink(link, EscapeString(n.text));
    var coded := Wrap(HasMark(n.marks, Code), "code", linked);
    WrapNested(HasMark(n.marks, Code), "code", linked);
    var strong := Wrap(HasMark(n.marks, Strong), "strong", coded);
    WrapNested(HasMark(n.marks, Strong), "strong", coded);
    if HasMark(n.marks, Em) {
      NoBlocks("em", strong);
      SimpleLoose("em", strong, more);
    } else if HasMark(n.marks, Strong) {
      NoBlocks("strong", coded);
      SimpleLoose("strong", coded, more);
    } else if HasMark(n.marks, Code) {
      NoBlocks("code", linked);
      SimpleLoose("code", linked, more);
    } else {
      LinkLoose(link, n.text, more);
    }
  }

  lemma LinkLoose(link: string, text: string, more: string)
    requires link != ""
    ensures StandsLoose(PrintLink(link, EscapeString(text)), more)
  {
    hide StandsLoose, WellNested, Elem, Attr, EscapeString, PlainName, TagName, OpenTag, BlockOf;
    InlineNames();
    EscapedNested(text);
    EscapeIsInert(link);
    var tag := Attr("a", "href", EscapeString(link));
    TagNameAttr("a", "href", EscapeString(link));
    AttributeTag("a", "href", EscapeString(link));
    NoBlocks(tag, EscapeString(text));
    ElemLoose(tag, "a", EscapeString(text), more);
  }

  lemma MentionLoose(attrs: Attrs, more: string)
    ensures StandsLoose(PrintMention(attrs), more)
  {
    hide StandsLoose, WellNested, Elem, BlockOf;
    LinkNames();
    var inner := MentionInner(StrAttr(attrs, "id"), TrimAt(StrAttr(attrs, "text")));
    MentionInnerNested(StrAttr(attrs, "id"), TrimAt(StrAttr(attrs, "text")));
    NoBlocks("ac:link", inner);
    SimpleLoose("ac:link", inner, more);
    assert PrintMention(attrs) == Elem("ac:link", "ac:link", inner);
  }

  lemma StatusIsNoBlock(inner: string)
    ensures BlockOf("ac:structured-macro", MacroTag("status"), inner).None?
  {
    hide AttributeValue, MacroTag, BlocksOf, PlainName;
    StatusNames();
    MacroTagReads("status");
    PlainReads("status");
  }

  lemma StatusLoose(attrs: Attrs, more: string)
    ensures StandsLoose(PrintStatus(attrs), more)
  {
    hide StandsLoose, WellNested, Elem, BlockOf, Attr, PlainName, OpenTag, TagName, Parameter, EscapeString, PanelStatusColour;
    var inner := StatusInside(attrs);
    StatusInner(attrs);
    MacroNames();
    StatusNames();
    NameInert("status");
    TagNameAttr("ac:structured-macro", "ac:name", "status");
    AttributeTag("ac:structured-macro", "ac:name", "status");
    StatusIsNoBlock(inner);
    ElemLoose(MacroTag("status"), "ac:structured-macro", inner, more);
  }

  lemma DateLoose(attrs: Attrs, more: string)
    requires Moment(attrs).Some?
    ensures StandsLoose(PrintDate(attrs), more)
  {
    hide StandsLoose, BlockOf, Attr, CivilText, DayAt, Moment, TagName;
    var text := CivilText(DayAt(Moment(attrs).value));
    InlineNames();
    DayInert(DayAt(Moment(attrs).value));
    var tag := Attr("time", "datetime", text) + " /";
    TimeTagShape(text);
    TagNameAttr("time", "datetime", text);
    NoBlocks(tag, "");
    EmptyLoose(tag, "time", more);
  }

  lemma BreakLoose(more: string)
    ensures StandsLoose("<br/>", more)
  {
    hide StandsLoose, BlockOf, TagName;
    assert PlainName("br");
    TagNameClosed("br");
    hide PlainName;
    assert "<" + ("br" + "/") + ">" == "<br/>";
    NoBlocks("br" + "/", "");
    EmptyLoose("br" + "/", "br", more);
  }

  lemma LeafLoose(n: Node, more: string)
    requires InlineKind(n.kind) && PlainRun(n).None?
    ensures StandsLoose(PrintNode(n), more)
  {
    hide StandsLoose, PrintText, PrintMention, PrintStatus, SettleMarks, PrintDate, Moment;
    match n.kind
    case Text => MarkedLoose(n, more);
    case Mention => MentionLoose(n.attrs, more);
    case Status => StatusLoose(n.attrs, more);
    case HardBreak => BreakLoose(more);
    case Date => DateLoose(n.attrs, more);
  }

  /** Inline content among blocks is set aside as it is printed. */
  lemma InlineShift(n: Node, more: string, loose: string)
    requires InlineKind(n.kind)
    ensures BlocksOf(PrintNode(n) + more, loose) == BlocksOf(more, loose + PrintNode(n))
  {
    hide BlocksOf, PrintNode, PlainRun, StandsLoose, EscapeString;
    if PlainRun(n).Some? {
      RunPrints(n);
      EscapeIsInert(PlainRun(n).value);
      TextShift(PrintNode(n), more, loose);
    } else {
      LeafLoose(n, more);
      ElementShift(PrintNode(n), more, loose);
    }
  }
}
