/** The pieces that documents are printed as are well nested, whatever data they hold. */
module StorageNested {
  import opened Text
  import opened Escape
  import opened Adf
  import opened Calendar
  import opened Storage
  import opened Markup

  lemma BlockNames()
    ensures PlainName("p") && PlainName("ul") && PlainName("ol") && PlainName("li") && PlainName("pre")
    ensures PlainName("blockquote")
  {
  }

  lemma InlineNames()
    ensures PlainName("code") && PlainName("a") && PlainName("strong") && PlainName("em")
    ensures PlainName("href") && PlainName("time") && PlainName("datetime")
  {
  }

  lemma TableNames()
    ensures PlainName("table") && PlainName("tr") && PlainName("th") && PlainName("td")
  {
  }

  lemma MacroNames()
    ensures PlainName("ac:structured-macro") && PlainName("ac:rich-text-body")
    ensures PlainName("ac:parameter") && PlainName("ac:name")
  {
  }

  lemma LinkNames()
    ensures PlainName("ac:link") && PlainName("ac:plain-text-link-body")
    ensures PlainName("ri:user") && PlainName("ri:account-id")
  {
  }

  lemma TaskNames()
    ensures PlainName("ac:task-list") && PlainName("ac:task") && PlainName("ac:task-id")
    ensures PlainName("ac:task-status") && PlainName("ac:task-body")
  {
  }

  lemma HeadingName(level: nat)
    requires 1 <= level <= 6
    ensures |Itoa(level)| == 1 && Itoa(level)[0] == Digit(level)
    ensures PlainName("h" + Itoa(level))
  {
    var d := Digit(level);
    assert '1' <= d <= '6';
    assert "h" + Itoa(level) == ['h', d];
  }

  /** An attribute with an inert value is part of its tag. */
  lemma AttributeTag(name: string, key: string, value: string)
    requires PlainName(name) && PlainName(key)
    requires '<' !in value && '>' !in value
    ensures OpenTag(Attr(name, key, value), name)
  {
    var rest := " " + key + "=\"" + value + "\"";
    assert Attr(name, key, value) == name + rest;
    assert rest[|rest| - 1] == '"';
    assert forall c :: c in rest ==> c == ' ' || c in key || c == '=' || c == '"' || c in value;
    OpenTagIs(name, rest);
  }

  lemma Attributed(name: string, key: string, value: string, body: string)
    requires PlainName(name) && PlainName(key)
    requires '<' !in value && '>' !in value && WellNested(body)
    ensures WellNested(Elem(Attr(name, key, value), name, body))
    ensures Tags(Elem(Attr(name, key, value), name, body)) == [Attr(name, key, value)] + Tags(body) + ["/" + name]
  {
    AttributeTag(name, key, value);
    NestedElem(Attr(name, key, value), name, body);
  }

  /** The same tag closing itself. */
  lemma EmptyAttributed(name: string, key: string, value: string)
    requires PlainName(name) && PlainName(key)
    requires '<' !in value && '>' !in value
    ensures WellNested("<" + (Attr(name, key, value) + " /") + ">")
    ensures Tags("<" + (Attr(name, key, value) + " /") + ">") == [Attr(name, key, value) + " /"]
  {
    var rest := " " + key + "=\"" + value + "\" /";
    var tag := Attr(name, key, value) + " /";
    assert tag == name + rest;
    assert forall c :: c in rest ==> c == ' ' || c in key || c == '=' || c == '"' || c in value || c == '/';
    LowerConcat(name, rest);
    LowerId(name);
    NameOfIs(name, ToLower(rest));
    NestedEmpty(tag);
  }

  // ---- leaves ----

  lemma WrapNested(active: bool, name: string, body: string)
    requires PlainName(name) && WellNested(body)
    ensures WellNested(Wrap(active, name, body))
  {
    hide WellNested, Elem;
    if active {
      NestedSimple(name, body);
    }
  }

  lemma LinkNested(link: string, body: string)
    requires WellNested(body)
    ensures WellNested(PrintLink(link, body))
  {
    hide WellNested, Elem, Attr;
    EscapeIsInert(link);
    InlineNames();
    Attributed("a", "href", EscapeString(link), body);
  }

  lemma EscapedNested(s: string)
    ensures WellNested(EscapeString(s)) && Tags(EscapeString(s)) == []
  {
    EscapeIsInert(s);
    NestedText(EscapeString(s));
  }

  lemma ParameterNested(name: string, value: string)
    requires PlainName(name) && '<' !in value
    ensures WellNested(Parameter(name, value))
    ensures Tags(Parameter(name, value)) == [Attr("ac:parameter", "ac:name", name), "/ac:parameter"]
  {
    hide WellNested, Elem, Attr;
    MacroNames();
    NestedText(value);
    Attributed("ac:parameter", "ac:name", name, value);
    assert "/" + "ac:parameter" == "/ac:parameter";
  }

  lemma ColourIsText(attrs: Attrs)
    ensures '<' !in PanelStatusColour(attrs)
  {
  }

  lemma MacroIsName(attrs: Attrs)
    ensures PlainName(PanelMacro(attrs))
  {
  }

  lemma MacroNested(name: string, body: string)
    requires PlainName(name) && WellNested(body)
    ensures WellNested(Macro(name, body))
    ensures Tags(Macro(name, body)) == [MacroTag(name)] + Tags(body) + ["/ac:structured-macro"]
  {
    hide WellNested, Elem, Attr;
    MacroNames();
    NameInert(name);
    Attributed("ac:structured-macro", "ac:name", name, body);
    assert "/" + "ac:structured-macro" == "/ac:structured-macro";
  }

  lemma NameInert(name: string)
    requires PlainName(name)
    ensures '<' !in name && '>' !in name && '"' !in name
  {
    assert !NameChar('<') && !NameChar('>') && !NameChar('"');
  }

  lemma StatusNames()
    ensures PlainName("colour") && PlainName("title") && PlainName("status")
  {
  }

  lemma StatusNested(attrs: Attrs)
    ensures WellNested(PrintStatus(attrs))
    ensures Tags(PrintStatus(attrs)) ==
            [MacroTag("status"), Attr("ac:parameter", "ac:name", "colour"), "/ac:parameter",
             Attr("ac:parameter", "ac:name", "title"), "/ac:parameter", "/ac:structured-macro"]
  {
    hide WellNested, Tags, Macro, Parameter, PanelStatusColour, MacroTag, Attr, EscapeString;
    StatusNames();
    ColourIsText(attrs);
    var colour, title := PanelStatusColour(attrs), EscapeString(StrAttr(attrs, "text"));
    EscapeIsInert(StrAttr(attrs, "text"));
    ParameterNested("colour", colour);
    ParameterNested("title", title);
    NestedConcat(Parameter("colour", colour), Parameter("title", title));
    MacroNested("status", Parameter("colour", colour) + Parameter("title", title));
  }

  lemma DayInert(c: Civil)
    requires Valid(c)
    ensures '<' !in CivilText(c) && '>' !in CivilText(c) && '"' !in CivilText(c)
  {
    hide CivilText;
    assert !IsDigit('<') && !IsDigit('>') && !IsDigit('"');
  }
}
