/** Inline content read back from its storage markup. */
module RoundTripInline {
  import opened Text
  import opened Escape
  import opened Adf
  import opened Storage
  import opened Markup
  import opened HtmlReader
  import opened StorageNested
  import opened Reading
  import opened Settle

  lemma TextNodesEscaped(text: string)
    ensures TextNodes(EscapeString(text)) == TextOf(text)
  {
    EscapeRoundTrip(text);
    TrimBlank(text);
  }

  /** Plain characters to the end of the content. */
  lemma ReadText(text: string)
    ensures InlineOf(EscapeString(text)) == TextOf(text)
  {
    EscapeIsInert(text);
    TextNodesEscaped(text);
    if text != "" {
      TextToEnd(EscapeString(text));
    }
  }

  /** Plain characters before a tag. */
  lemma ReadRun(text: string, more: string)
    requires more != "" && more[0] == '<'
    ensures InlineOf(EscapeString(text) + more) == TextOf(text) + InlineOf(more)
  {
    hide ElementOf;
    EscapeIsInert(text);
    if text == "" {
      assert EscapeString(text) + more == more;
      assert [] + InlineOf(more) == InlineOf(more);
    } else {
      TextAt(EscapeString(text), more);
      TextNodesEscaped(text);
      InlineRound(EscapeString(text) + more);
      InlineText("", EscapeString(text));
    }
  }

  /** An element within inline content. */
  lemma ReadElem(tag: string, name: string, body: string, more: string)
    requires OpenTag(tag, name) && PlainName(name) && TagName(tag) == name && WellNested(body)
    ensures InlineOf(Elem(tag, name, body) + more) == InlineElement(name, tag, body) + InlineOf(more)
  {
    hide ElementOf, WellNested, TagName, InlineElement;
    ElementAt(tag, name, body, more);
    InlineRound(Elem(tag, name, body) + more);
  }

  lemma ReadSimple(name: string, body: string, more: string)
    requires PlainName(name) && WellNested(body)
    ensures InlineOf(Elem(name, name, body) + more) == InlineElement(name, name, body) + InlineOf(more)
  {
    hide ElementOf, WellNested, TagName, InlineElement, InlineOf;
    TagNameSimple(name);
    OpenTagIs(name, "");
    assert name + "" == name;
    ReadElem(name, name, body, more);
  }

  lemma ReadAttr(name: string, key: string, value: string, body: string, more: string)
    requires PlainName(name) && PlainName(key) && '<' !in value && '>' !in value && WellNested(body)
    ensures InlineOf(Elem(Attr(name, key, value), name, body) + more) ==
            InlineElement(name, Attr(name, key, value), body) + InlineOf(more)
  {
    hide ElementOf, WellNested, TagName, InlineElement, InlineOf, Attr;
    TagNameAttr(name, key, value);
    AttributeTag(name, key, value);
    ReadElem(Attr(name, key, value), name, body, more);
  }

  lemma ReadEmpty(tag: string, name: string, more: string)
    requires '>' !in tag && SelfCloses(tag) && TagName(tag) == name && PlainName(name) && tag[0] != '!'
    ensures InlineOf("<" + tag + ">" + more) == InlineElement(name, tag, "") + InlineOf(more)
  {
    hide ElementOf, TagName, InlineElement;
    EmptyAt(tag, name, more);
    InlineRound("<" + tag + ">" + more);
  }

  // ---- marked text ----

  /** The one text node that stays of a text under its marks, or nothing when it is blank. */
  function Marked(text: string, marks: seq<Mark>): seq<Node> {
    if Blank(text) then [] else [TextNode(text, marks)]
  }

  lemma MarkedMore(text: string, marks: seq<Mark>, mark: Mark)
    ensures AddMark(Marked(text, marks), mark) == Marked(text, marks + [mark])
  {
  }

  lemma ReadWrap(active: bool, name: string, kind: MarkKind, body: string, text: string, marks: seq<Mark>)
    requires PlainName(name) && MarkFor(name) == Some(kind) && name != "br" && WellNested(body)
    requires InlineOf(body) == Marked(text, marks)
    ensures InlineOf(Wrap(active, name, body)) == Marked(text, marks + if active then [Mark(kind, map[])] else [])
    ensures WellNested(Wrap(active, name, body))
  {
    hide InlineOf, WellNested, Elem;
    WrapNested(active, name, body);
    if active {
      ReadSimple(name, body, "");
      assert Elem(name, name, body) + "" == Elem(name, name, body);
      InlineEnd();
      MarkedMore(text, marks, Mark(kind, map[]));
      assert InlineElement(name, name, body) == AddMark(InlineOf(body), Mark(kind, map[]));
    } else {
      assert marks + [] == marks;
    }
  }

  lemma InlineEnd()
    ensures InlineOf("") == []
  {
  }

  lemma ReadLink(link: string, text: string)
    ensures InlineOf(PrintLink(link, EscapeString(text))) ==
            Marked(text, if link == "" then [] else [Mark(Link, map["href" := Str(link)])])
  {
    hide InlineOf, WellNested, Elem, Attr;
    var body := EscapeString(text);
    ReadText(text);
    if link != "" {
      InlineNames();
      EscapeIsInert(link);
      EscapedNested(text);
      ReadAttr("a", "href", EscapeString(link), body, "");
      InlineEnd();
      var tag := Attr("a", "href", EscapeString(link));
      assert Elem(tag, "a", body) + "" == Elem(tag, "a", body);
      AttributeIs("a", "href", EscapeString(link), "");
      assert tag + "" == tag;
      EscapeRoundTrip(link);
      MarkedMore(text, [], Mark(Link, map["href" := Str(link)]));
      assert [] + [Mark(Link, map["href" := Str(link)])] == [Mark(Link, map["href" := Str(link)])];
      LinkElement(tag, body, link);
    }
  }

  lemma LinkElement(tag: string, body: string, link: string)
    requires AttributeValue(tag, "href") == link
    ensures InlineElement("a", tag, body) == AddMark(InlineOf(body), Mark(Link, map["href" := Str(link)]))
  {
    hide InlineOf, AttributeValue;
  }

  lemma MarkNames()
    ensures MarkFor("em") == Some(Em) && MarkFor("strong") == Some(Strong) && MarkFor("code") == Some(Code)
  {
  }

  /** A text under any marks, read on its own. */
  lemma ReadMarkedText(n: Node)
    ensures InlineOf(PrintText(n)) == Marked(n.text, SettleMarks(n.marks))
  {
    hide InlineOf, WellNested, Wrap, PrintLink, LinkOf, HasMark, MarkFor;
    InlineNames();
    MarkNames();
    var link := LinkOf(n.marks);
    var m0 := if link == "" then [] else [Mark(Link, map["href" := Str(link)])];
    var linked := PrintLink(link, EscapeString(n.text));
    ReadLink(link, n.text);
    EscapedNested(n.text);
    LinkNested(link, EscapeString(n.text));
    var coded := Wrap(HasMark(n.marks, Code), "code", linked);
    ReadWrap(HasMark(n.marks, Code), "code", Code, linked, n.text, m0);
    var m1 := m0 + if HasMark(n.marks, Code) then [Mark(Code, map[])] else [];
    var strong := Wrap(HasMark(n.marks, Strong), "strong", coded);
    ReadWrap(HasMark(n.marks, Strong), "strong", Strong, coded, n.text, m1);
    var m2 := m1 + if HasMark(n.marks, Strong) then [Mark(Strong, map[])] else [];
    ReadWrap(HasMark(n.marks, Em), "em", Em, strong, n.text, m2);
  }

  lemma ElemSplits(tag: string, name: string, body: string, more: string)
    requires OpenTag(tag, name) && PlainName(name) && TagName(tag) == name && WellNested(body)
    ensures InlineOf(Elem(tag, name, body) + more) == InlineOf(Elem(tag, name, body)) + InlineOf(more)
    ensures Elem(tag, name, body) + more != "" && (Elem(tag, name, body) + more)[0] == '<'
  {
    hide InlineOf, WellNested, TagName, InlineElement, OpenTag;
    ReadElem(tag, name, body, more);
    ReadElem(tag, name, body, "");
    InlineEnd();
    assert Elem(tag, name, body) + "" == Elem(tag, name, body);
    assert Elem(tag, name, body)[0] == '<';
  }

  lemma WrapSplits(name: string, body: string, more: string)
    requires PlainName(name) && WellNested(body)
    ensures InlineOf(Elem(name, name, body) + more) == InlineOf(Elem(name, name, body)) + InlineOf(more)
    ensures Elem(name, name, body) + more != "" && (Elem(name, name, body) + more)[0] == '<'
  {
    hide InlineOf, WellNested, TagName, Elem;
    TagNameSimple(name);
    OpenTagIs(name, "");
    assert name + "" == name;
    ElemSplits(name, name, body, more);
  }

  /** A marked text stands as an element of its own. */
  lemma MarkedSplits(n: Node, more: string)
    requires SettleMarks(n.marks) != []
    ensures InlineOf(PrintText(n) + more) == InlineOf(PrintText(n)) + InlineOf(more)
    ensures (PrintText(n) + more) != "" && (PrintText(n) + more)[0] == '<'
  {
    hide InlineOf, WellNested, LinkOf, HasMark, Elem, Attr, EscapeString, PlainName, TagName, OpenTag;
    InlineNames();
    EscapedNested(n.text);
    var link := LinkOf(n.marks);
    LinkNested(link, EscapeString(n.text));
    var linked := PrintLink(link, EscapeString(n.text));
    var coded := Wrap(HasMark(n.marks, Code), "code", linked);
    WrapNested(HasMark(n.marks, Code), "code", linked);
    var strong := Wrap(HasMark(n.marks, Strong), "strong", coded);
    WrapNested(HasMark(n.marks, Strong), "strong", coded);
    if HasMark(n.marks, Em) {
      WrapSplits("em", strong, more);
    } else if HasMark(n.marks, Strong) {
      WrapSplits("strong", coded, more);
    } else if HasMark(n.marks, Code) {
      WrapSplits("code", linked, more);
    } else {
      EscapeIsInert(link);
      TagNameAttr("a", "href", EscapeString(link));
      AttributeTag("a", "href", EscapeString(link));
      ElemSplits(Attr("a", "href", EscapeString(link)), "a", EscapeString(n.text), more);
    }
  }

  lemma ReadMarked(n: Node, more: string)
    requires n.kind == Kind.Text && SettleMarks(n.marks) != []
    ensures InlineOf(PrintText(n) + more) == SettleLeaf(n) + InlineOf(more)
    ensures PrintText(n) + more != "" && (PrintText(n) + more)[0] == '<'
  {
    hide InlineOf, PrintText, SettleMarks;
    MarkedSplits(n, more);
    ReadMarkedText(n);
  }

  // ---- mentions ----

  lemma UserTag(id: string, rest: string)
    ensures var user := "<" + (Attr("ri:user", "ri:account-id", EscapeString(id)) + " /") + ">";
            AttributeValue(user + rest, "ri:account-id") == id
  {
    hide Attr;
    LinkNames();
    var value := EscapeString(id);
    EscapeIsInert(id);
    EscapeRoundTrip(id);
    var tag := Attr("ri:user", "ri:account-id", value);
    var user := "<" + (tag + " /") + ">";
    assert user + rest == "<" + (tag + (" />" + rest));
    AttributeIs("ri:user", "ri:account-id", value, " />" + rest);
  }

  lemma ReadMention(n: Node, more: string)
    requires n.kind == Mention
    ensures InlineOf(PrintMention(n.attrs) + more) == SettleMention(n.attrs) + InlineOf(more)
    ensures PrintMention(n.attrs) + more != "" && (PrintMention(n.attrs) + more)[0] == '<'
  {
    hide InlineOf, WellNested, InlineElement, SettleMention;
    LinkNames();
    var id, name := StrAttr(n.attrs, "id"), TrimAt(StrAttr(n.attrs, "text"));
    var inner := MentionInner(id, name);
    MentionInnerNested(id, name);
    ReadSimple("ac:link", inner, more);
    MentionElement(n.attrs, inner);
    assert PrintMention(n.attrs) == Elem("ac:link", "ac:link", inner);
  }

  function UserElem(id: string): string {
    "<" + (Attr("ri:user", "ri:account-id", EscapeString(id)) + " /") + ">"
  }

  function LabelElem(name: string): string {
    if name == "" then "" else Elem("ac:plain-text-link-body", "ac:plain-text-link-body", EscapeString(name))
  }

  function MentionInner(id: string, name: string): string {
    UserElem(id) + LabelElem(name)
  }

  lemma UserNested(id: string)
    ensures WellNested(UserElem(id)) && Complete(UserElem(id))
    ensures "ac:plain-text-link-body" !in Tags(UserElem(id))
  {
    LinkNames();
    EscapeIsInert(id);
    hide WellNested, Complete, Tags;
    EmptyAttributed("ri:user", "ri:account-id", EscapeString(id));
    assert Attr("ri:user", "ri:account-id", EscapeString(id))[0] == 'r';
    NestedComplete(UserElem(id));
  }

  lemma LabelNested(name: string)
    ensures WellNested(LabelElem(name))
  {
    hide WellNested, Elem;
    LinkNames();
    EscapedNested(name);
    NestedText("");
    if name != "" {
      NestedSimple("ac:plain-text-link-body", EscapeString(name));
    }
  }

  lemma MentionInnerNested(id: string, name: string)
    ensures WellNested(MentionInner(id, name))
  {
    hide WellNested, UserElem, LabelElem;
    UserNested(id);
    LabelNested(name);
    NestedConcat(UserElem(id), LabelElem(name));
  }

  lemma LabelIs(id: string, name: string)
    ensures LinkLabel(MentionInner(id, name)) == EscapeString(TrimSpace(name))
  {
    hide UserElem, Between, EscapeString, TrimSpace, TrimCdata, Elem, Complete, Tags;
    UserNested(id);
    var inner := MentionInner(id, name);
    if name == "" {
      assert inner == UserElem(id);
      NotBetween(UserElem(id), LABEL);
      EscapeTrim("");
    } else {
      var text := EscapeString(name);
      EscapeIsInert(name);
      LabelAt(UserElem(id), text);
      EscapeTrim(name);
      NotCdata(TrimSpace(name));
    }
  }

  lemma NotBetween(user: string, name: string)
    requires Complete(user) && name !in Tags(user) && '<' !in name && '>' !in name
    ensures Between(user, "<" + name + ">", "</" + name + ">") == None
  {
    hide Complete, Tags, Index;
    NoTag(user, name);
  }

  lemma BetweenTags(user: string, name: string, text: string)
    requires Complete(user) && name !in Tags(user) && '<' !in name && '>' !in name && '<' !in text
    ensures Between(user + Elem(name, name, text), "<" + name + ">", "</" + name + ">") == Some(text)
  {
    hide Complete, Tags, Index;
    var open, close := "<" + name + ">", "</" + name + ">";
    var rest := text + close;
    var inner := user + Elem(name, name, text);
    assert inner == user + open + rest;
    FirstTag(user, name, rest);
    assert inner[|user| + |open|..] == rest;
    IndexAfter(text, close, "");
    assert text + close + "" == rest;
    assert rest[..|text|] == text;
  }

  lemma LabelAt(user: string, text: string)
    requires Complete(user) && "ac:plain-text-link-body" !in Tags(user) && '<' !in text
    ensures LinkLabel(user + Elem("ac:plain-text-link-body", "ac:plain-text-link-body", text)) == TrimCdata(TrimSpace(text))
  {
    hide Complete, Tags, TrimCdata, TrimSpace, Between, Elem;
    BetweenTags(user, "ac:plain-text-link-body", text);
  }

  lemma NotCdata(name: string)
    ensures TrimCdata(EscapeString(name)) == EscapeString(name)
  {
    EscapeIsInert(name);
    var text := EscapeString(name);
    assert !("<![CDATA[" <= text) by {
      if text != "" {
        assert text[0] in text;
      }
    }
    if |text| >= 3 {
      assert text[|text| - 3..][2] == text[|text| - 1] && text[|text| - 1] in text;
    }
  }

  lemma MentionElement(attrs: Attrs, inner: string)
    requires inner == MentionInner(StrAttr(attrs, "id"), TrimAt(StrAttr(attrs, "text")))
    ensures InlineElement("ac:link", "ac:link", inner) == SettleMention(attrs)
  {
    hide InlineOf, AttributeValue, LinkLabel, MentionInner, StrAttr, TrimAt, EscapeString, UnescapeString, TrimSpace;
    var id, name := StrAttr(attrs, "id"), TrimAt(StrAttr(attrs, "text"));
    AccountIs(id, name);
    LabelIs(id, name);
    EscapeRoundTrip(TrimSpace(name));
    if id == "" {
      NamelessMention(id, name);
    }
  }

  lemma AccountIs(id: string, name: string)
    ensures AttributeValue(MentionInner(id, name), "ri:account-id") == id
  {
    UserTag(id, LabelElem(name));
  }

  /** A link to no account reads as the text it wraps. */
  lemma NamelessMention(id: string, name: string)
    ensures InlineOf(MentionInner(id, name)) == TextOf(name)
  {
    hide InlineOf, LabelElem, UserElem;
    SkipUser(id, LabelElem(name));
    ReadLabel(name);
  }

  lemma SkipUser(id: string, rest: string)
    ensures InlineOf(UserElem(id) + rest) == InlineOf(rest)
  {
    hide InlineOf, InlineElement, TagName, Attr;
    LinkNames();
    EscapeIsInert(id);
    var tag := Attr("ri:user", "ri:account-id", EscapeString(id)) + " /";
    TagNameAttr("ri:user", "ri:account-id", EscapeString(id));
    UserTagShape(EscapeString(id));
    ReadEmpty(tag, "ri:user", rest);
    InlineEnd();
    OtherElement("ri:user", tag, "");
  }

  lemma UserTagShape(value: string)
    requires '>' !in value
    ensures var tag := Attr("ri:user", "ri:account-id", value) + " /";
            '>' !in tag && tag[0] == 'r' && SelfCloses(tag)
  {
  }

  lemma ReadLabel(name: string)
    ensures InlineOf(LabelElem(name)) == TextOf(name)
  {
    hide InlineOf, InlineElement, WellNested, Elem;
    LinkNames();
    InlineEnd();
    if name != "" {
      EscapedNested(name);
      ReadSimple("ac:plain-text-link-body", EscapeString(name), "");
      var e := Elem("ac:plain-text-link-body", "ac:plain-text-link-body", EscapeString(name));
      assert e + "" == e;
      OtherElement("ac:plain-text-link-body", "ac:plain-text-link-body", EscapeString(name));
      ReadText(name);
    }
  }

  lemma OtherElement(name: string, tag: string, inner: string)
    requires name == "ri:user" || name == "ac:plain-text-link-body"
    ensures InlineElement(name, tag, inner) == InlineOf(inner)
  {
    hide InlineOf;
  }
}
