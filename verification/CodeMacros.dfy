/** Code kept in a macro, as the storage format writes it, read into a document. */
module CodeMacros {
  import opened Text
  import opened Escape
  import opened Adf
  import opened Storage
  import opened Markup
  import opened Closing
  import opened HtmlReader
  import opened StorageNested
  import opened Reading
  import opened Settle
  import opened RoundTripLeaves
  import opened RoundTripInline
  import opened PanelTitles
  import opened OpenMarkup
  import opened RoundTrip
  import opened Losses

  const PLAIN := "ac:plain-text-body"
  const MACRO := "ac:structured-macro"

  /** A code macro whose body is written so. */
  function CodeMacro(body: string): string {
    Macro("code", Elem(PLAIN, PLAIN, body))
  }

  lemma Names()
    ensures PlainName(PLAIN) && PlainName(MACRO) && PlainName("code")
  {
  }

  /** What the macro is taken for, by the body that is found in it. */
  lemma CodeBlockOf(inner: string)
    ensures BlockOf(MACRO, MacroTag("code"), inner) ==
            Some(Block(CodeBlock, map[], TextNodes(UnescapeString(Stripped(MacroBody(inner, PLAIN), 0)))))
  {
    hide MacroTag, AttributeValue, BlocksOf, PlainName, Stripped, MacroBody, TextNodes, UnescapeString;
    Names();
    MacroTagReads("code");
    PlainReads("code");
  }

  lemma CodeTag()
    ensures var tag := MacroTag("code"); OpenTag(tag, MACRO) && TagName(tag) == MACRO
    ensures var tag := MacroTag("code"); tag != "" && tag[0] != '!' && '>' !in tag && !SelfCloses(tag)
  {
    hide TagName, OpenTag;
    Names();
    MacroNames();
    NameInert("code");
    AttributeTag(MACRO, "ac:name", "code");
    TagNameAttr(MACRO, "ac:name", "code");
    assert OpenTag(MacroTag("code"), MACRO);
    OpenTagFacts(MacroTag("code"), MACRO);
    assert MacroTag("code")[0] == 'a';
  }

  lemma OpenTagFacts(tag: string, name: string)
    requires OpenTag(tag, name)
    ensures '>' !in tag && !SelfCloses(tag)
  {
    hide NameOf;
  }

  lemma BodyFound(name: string, body: string)
    requires Index(body + ("</" + name + ">"), "</" + name + ">") == |body|
    ensures MacroBody(Elem(name, name, body), name) == body
  {
    hide MacroBody, Index;
    var close := "</" + name + ">";
    assert body + close + "" == body + close;
    BodyBetween(name, body, "");
    assert Elem(name, name, body) == ("<" + name + ">") + (body + close);
  }

  lemma EscapedStripped(text: string)
    ensures Stripped(EscapeString(text), 0) == EscapeString(text)
  {
    hide EscapeString;
    EscapeIsInert(text);
    StrippedText(EscapeString(text), "");
    assert EscapeString(text) + "" == EscapeString(text);
  }

  lemma CodeInside(text: string)
    ensures BlockOf(MACRO, MacroTag("code"), Elem(PLAIN, PLAIN, EscapeString(text))) ==
            Some(Block(CodeBlock, map[], TextOf(UnescapeString(text))))
  {
    hide BlockOf, Stripped, MacroBody, EscapeString, UnescapeString, Index, Elem, TrimSpace;
    var inner := Elem(PLAIN, PLAIN, EscapeString(text));
    CodeBlockOf(inner);
    EscapeIsInert(text);
    IndexAfter(EscapeString(text), "</" + PLAIN + ">", "");
    assert EscapeString(text) + ("</" + PLAIN + ">") + "" == EscapeString(text) + ("</" + PLAIN + ">");
    BodyFound(PLAIN, EscapeString(text));
    EscapedStripped(text);
    EscapeRoundTrip(text);
    TrimBlank(UnescapeString(text));
  }

  /** Code written as escaped text is read, with the references in it turned into characters. */
  lemma CodeMacroReads(text: string, more: string, loose: string)
    ensures BlocksOf(CodeMacro(EscapeString(text)) + more, loose) ==
            Flush(loose) + [Block(CodeBlock, map[], TextOf(UnescapeString(text)))] + BlocksOf(more, "")
  {
    hide BlocksOf, BlockOf, EscapeString, UnescapeString, Flush, WellNested, TagName, OpenTag, MacroTag, PlainName, Elem, TextOf;
    Names();
    CodeTag();
    EscapedNested(text);
    NestedSimple(PLAIN, EscapeString(text));
    CodeInside(text);
    ReadBlock(MacroTag("code"), MACRO, Elem(PLAIN, PLAIN, EscapeString(text)), Block(CodeBlock, map[], TextOf(UnescapeString(text))), more, loose);
  }

  // ---- code in a raw section ----

  function Section(text: string): string {
    "![CDATA[" + text + "]]"
  }

  lemma {:induction false} StrippedInside(s: string)
    requires '<' !in s && '>' !in s
    ensures Stripped(s + ">", 1) == ""
  {
    if s == "" {
      assert (">")[1..] == "";
      assert s + ">" == ">";
    } else {
      StrippedInside(s[1..]);
      assert s[0] in s && (s + ">")[1..] == s[1..] + ">";
    }
  }

  lemma SectionStripped(text: string)
    requires '<' !in text && '>' !in text
    ensures Stripped("<" + Section(text) + ">", 0) == ""
  {
    hide Stripped;
    SectionInert(text);
    StrippedInside(Section(text));
    StripOpens(Section(text) + ">");
    assert "<" + (Section(text) + ">") == "<" + Section(text) + ">";
  }

  lemma SectionInert(text: string)
    requires '<' !in text && '>' !in text
    ensures '<' !in Section(text) && '>' !in Section(text)
  {
  }

  lemma NothingInSection(text: string)
    requires '<' !in text && '>' !in text
    ensures BlockOf(MACRO, MacroTag("code"), Elem(PLAIN, PLAIN, "<" + Section(text) + ">")) == Some(Block(CodeBlock, map[], []))
  {
    hide BlockOf, Stripped, MacroBody, Index, Elem, Section, MacroTag;
    var body := "<" + Section(text) + ">";
    var inner := Elem(PLAIN, PLAIN, body);
    CodeBlockOf(inner);
    SectionIs(text);
    Names();
    NameInert(PLAIN);
    assert ("/" + PLAIN)[0] == '/';
    SectionBodyEnds(Section(text), PLAIN);
    BodyFound(PLAIN, body);
    SectionStripped(text);
    Nothing();
  }

  lemma Nothing()
    ensures TextNodes(UnescapeString("")) == []
  {
  }

  lemma FoundAtOnce(s: string)
    ensures Index(s, s) == 0
  {
  }

  lemma CloseText(name: string)
    requires '<' !in name && '>' !in name
    ensures "</" + name + ">" == "<" + ("/" + name) + ">" && '<' !in "/" + name && '>' !in "/" + name
  {
  }

  lemma SectionBodyEnds(section: string, name: string)
    requires '<' !in section && '>' !in section && section != "/" + name && '<' !in name && '>' !in name
    ensures Index("<" + section + ">" + ("</" + name + ">"), "</" + name + ">") == |section| + 2
  {
    hide Index;
    CloseText(name);
    PassTag(section, "</" + name + ">", "/" + name);
    FoundAtOnce("</" + name + ">");
  }

  lemma EndFound(name: string, low: string)
    ensures Index(low + CloseOf(name), CloseOf(name)) >= 0
  {
    hide Index;
    var s := low + CloseOf(name);
    assert s[|low|..] == CloseOf(name);
    IndexFirst(s, CloseOf(name), |low|);
  }

  lemma GoodMacro()
    ensures GoodName(MACRO) && CloseOf(MACRO) == "</" + MACRO + ">"
  {
    Names();
  }

  lemma SectionDepth(section: string, name: string)
    requires section != "" && section[0] == '!' && name != "" && name[0] != '!'
    ensures DepthAfter(section, name, 0) == 0
  {
    assert NameOf(section) <= section;
    assert NameOf(section) == "" || NameOf(section)[0] == '!';
    hide NameOf;
  }

  lemma PlainDepths(plain: string, name: string)
    requires PlainName(plain) && plain != name
    ensures DepthAfter("/" + plain, name, 0) == 0 && DepthAfter(plain, name, 0) == 0
  {
    PlainFacts(plain);
    NameOfIs(plain, "");
    assert plain + "" == plain && ("/" + plain)[1..] == plain;
    hide NameOf, PlainName;
  }

  lemma OtherDepths(section: string)
    requires section != "" && section[0] == '!'
    ensures DepthAfter("/" + PLAIN, MACRO, 0) == 0 && DepthAfter(PLAIN, MACRO, 0) == 0 && DepthAfter(section, MACRO, 0) == 0
    ensures "/" + PLAIN != "/" + MACRO && PLAIN != "/" + MACRO && section != "/" + MACRO
  {
    hide DepthAfter, PlainName;
    Names();
    assert |PLAIN| != |MACRO| && MACRO[0] != '!';
    PlainDepths(PLAIN, MACRO);
    SectionDepth(section, MACRO);
    assert ("/" + PLAIN)[1..] == PLAIN && ("/" + MACRO)[1..] == MACRO;
    assert ("/" + MACRO)[0] == '/' && PLAIN[0] == 'a';
  }

  /** The end of the macro is found behind its raw section. */
  lemma SectionEnds(section: string)
    requires '<' !in section && '>' !in section && section != "" && section[0] == '!'
    ensures var inner := "<" + PLAIN + ">" + ("<" + section + ">") + ("</" + PLAIN + ">");
            ClosingIn(inner + CloseOf(MACRO), MACRO, 0) == |inner|
  {
    GoodMacro();
    Names();
    NameInert(PLAIN);
    OtherDepths(section);
    MatchingEnd(MACRO, CloseOf(MACRO));
    TagsPassed(section, PLAIN, MACRO, CloseOf(MACRO));
  }

  /** Three tags that are not of the element's name are passed. */
  lemma TagsPassed(section: string, plain: string, name: string, end: string)
    requires GoodName(name) && end == CloseOf(name) && ClosingIn(end, name, 0) == 0
    requires '<' !in section && '>' !in section && '<' !in plain && '>' !in plain && section != "" && plain != ""
    requires DepthAfter("/" + plain, name, 0) == 0 && DepthAfter(plain, name, 0) == 0 && DepthAfter(section, name, 0) == 0
    requires "/" + plain != "/" + name && plain != "/" + name && section != "/" + name
    ensures var inner := "<" + plain + ">" + ("<" + section + ">") + ("</" + plain + ">");
            ClosingIn(inner + end, name, 0) == |inner|
  {
    hide ClosingIn, Index, DepthAfter, GoodName, CloseOf;
    var c := "/" + plain;
    var low2, low1 := "<" + c + ">" + end, "<" + section + ">" + ("<" + c + ">" + end);
    EndFound(name, "");
    assert "" + end == end;
    TagStep(c, name, end, 0);
    EndFound(name, "<" + c + ">");
    TagStep(section, name, low2, 0);
    EndFound(name, "<" + section + ">" + ("<" + c + ">"));
    Assoc("<" + section + ">", "<" + c + ">", end);
    TagStep(plain, name, low1, 0);
    assert "</" + plain + ">" == "<" + c + ">";
    var a, b, d := "<" + plain + ">", "<" + section + ">", "<" + c + ">";
    Assoc(a, b, d);
    Assoc(a, b + d, end);
    Assoc(b, d, end);
  }

  lemma LowerSection(section: string)
    requires '<' !in section && '>' !in section && section != "" && section[0] == '!'
    ensures var low := ToLower(section); '<' !in low && '>' !in low && low != "" && low[0] == '!'
  {
    assert forall i :: 0 <= i < |section| ==> section[i] in section;
  }

  lemma MacroEnds(section: string)
    requires '<' !in section && '>' !in section && section != "" && section[0] == '!'
    ensures var inner := Elem(PLAIN, PLAIN, "<" + section + ">");
            ClosingIn(ToLower(inner + ("</" + MACRO + ">")), MACRO, 0) == |inner|
  {
    LowerSection(section);
    SectionEnds(ToLower(section));
    LowerMacro(section);
  }

  lemma LowerMacro(section: string)
    ensures ToLower(Elem(PLAIN, PLAIN, "<" + section + ">") + ("</" + MACRO + ">")) ==
            "<" + PLAIN + ">" + ("<" + ToLower(section) + ">") + ("</" + PLAIN + ">") + CloseOf(MACRO)
  {
    GoodMacro();
    var a, b, c := "<" + PLAIN + ">", "</" + PLAIN + ">", "</" + MACRO + ">";
    LowerId(a);
    LowerId(b);
    LowerId(c);
    LowerConcat(a, "<" + section + ">");
    LowerConcat(a + ("<" + section + ">"), b);
    LowerConcat(a + ("<" + section + ">") + b, c);
    assert Elem(PLAIN, PLAIN, "<" + section + ">") == a + ("<" + section + ">") + b;
    assert "<" + section + ">" == "<" + section + ">" + "";
    LowerTag(section, "");
    assert "<" + ToLower(section) + ">" + "" == "<" + ToLower(section) + ">";
  }

  /** A macro whose end is found, and nothing else. */
  lemma MacroAlone(inner: string, block: Node)
    requires BlockOf(MACRO, MacroTag("code"), inner) == Some(block)
    requires ClosingIn(ToLower(inner + ("</" + MACRO + ">")), MACRO, 0) == |inner|
    ensures FromHtml(Macro("code", inner)) == Block(Doc, map[], [block])
  {
    hide BlockOf, BlocksOf, ElementOf, ClosingIn, MacroTag, TagName, OpenTag, SelfCloses, Flush, ToLower;
    var rest := inner + ("</" + MACRO + ">");
    var s := "<" + MacroTag("code") + ">" + rest;
    CodeTag();
    ClosedElement(MacroTag("code"), MACRO, rest);
    assert rest[..|inner|] == inner;
    assert Macro("code", inner) == s;
    BlocksRound(s, "");
    assert s[|s|..] == "";
    BlocksRound("", "");
    FlushEmpty();
    assert [] + [block] + [] == [block];
  }

  /**
   * Code in a raw section is lost: a macro that keeps its code so, with no angle brackets in the code,
   * is read as a code block without any. Only code that shows nothing comes back as it was.
   */
  lemma SectionIsLost(text: string)
    requires '<' !in text && '>' !in text
    ensures FromHtml(CodeMacro("<![CDATA[" + text + "]]>")) == Block(Doc, map[], [Block(CodeBlock, map[], [])])
    ensures FromHtml(CodeMacro("<![CDATA[" + text + "]]>")) == Block(Doc, map[], [Block(CodeBlock, map[], TextOf(text))]) <==> Blank(text)
  {
    hide BlockOf, ClosingIn, FromHtml, Macro, Elem, Section, Blank;
    SectionIs(text);
    MacroEnds(Section(text));
    NothingInSection(text);
    MacroAlone(Elem(PLAIN, PLAIN, "<" + Section(text) + ">"), Block(CodeBlock, map[], []));
  }

  lemma SectionIs(text: string)
    requires '<' !in text && '>' !in text
    ensures "<![CDATA[" + text + "]]>" == "<" + Section(text) + ">"
    ensures '<' !in Section(text) && '>' !in Section(text) && Section(text) != "" && Section(text)[0] == '!'
  {
  }

  // ---- a raw section in the label of a link ----

  lemma TrimSection(text: string)
    ensures TrimCdata("<![CDATA[" + text + "]]>") == text
  {
    var open, s := "<![CDATA[", "<![CDATA[" + text + "]]>";
    assert s[9..] == text + "]]>";
    assert (text + "]]>")[|text|..] == "]]>" && (text + "]]>")[..|text|] == text;
    assert |s[9..]| == |text| + 3;
  }

  lemma NoTrimSection(text: string)
    ensures TrimSpace("<![CDATA[" + text + "]]>") == "<![CDATA[" + text + "]]>"
  {
    var s := "<![CDATA[" + text + "]]>";
    assert s[0] == '<' && s[|s| - 1] == '>';
    NoTrim(s);
  }

  /** A label in a raw section is the section's text, without angle brackets in it. */
  lemma RawLabel(text: string)
    requires '<' !in text && '>' !in text
    ensures LinkLabel("<" + LABEL + ">" + ("<![CDATA[" + text + "]]>") + ("</" + LABEL + ">")) == text
  {
    hide Index, TrimSpace, TrimCdata, Section;
    LinkNames();
    NameInert(LABEL);
    SectionIs(text);
    assert ("/" + LABEL)[0] == '/';
    SectionBodyEnds(Section(text), LABEL);
    LabelBetween("<" + Section(text) + ">", "<" + LABEL + ">", "</" + LABEL + ">");
    NoTrimSection(text);
    TrimSection(text);
  }

  lemma LabelBetween(body: string, open: string, close: string)
    requires Index(body + close, close) == |body|
    ensures Between(open + body + close, open, close) == Some(body)
  {
    hide Index;
    var inner := open + body + close;
    assert inner == open + (body + close);
    IndexFirst(inner, open, 0);
    assert inner[0..] == inner && inner[|open|..] == body + close && (body + close)[..|body|] == body;
  }
}
